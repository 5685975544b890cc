/** The evaluator's threshold loop when nothing else touches its stores, and what follows for
    whole series of evaluations. */
module Evaluator {
  import opened Common
  import opened Keys
  import opened Thresholds

  datatype Alert = Alert(device: string, metric: string, value: real, kind: Kind, bound: real, severity: string, silenced: bool, triggeredAt: Micros)

  /** A published alert, with the instants of its suppression check, its insert, and the key's write. */
  datatype Publication = Publication(alert: Alert, checkedAt: Micros, recordedAt: Micros, setAt: Micros)

  /** The stores an evaluation touches: value history, Redis keys, the alerts table, MQTT. */
  datatype World = World(history: History, redis: map<string, Micros>, alerts: seq<Alert>, published: seq<Publication>)

  /** One metric value to evaluate, with the thresholds found for it and the verdict of the silence lookup. */
  datatype Request = Request(device: string, metric: string, value: real, thresholds: seq<Threshold>, silenced: bool)

  /** When and how the operations for one threshold went, should they come up. */
  datatype Visit = Visit(triggeredAt: Micros, checkAt: Micros, getOk: bool, insertAt: Micros, insert: Outcome, setAt: Micros, mark: Outcome)

  function Bound(t: Threshold): real {
    if t.upper == 0.0 then t.lower else t.upper
  }

  function MakeAlert(q: Request, t: Threshold, at: Micros): Alert {
    Alert(q.device, q.metric, q.value, t.kind, Bound(t), t.severity, q.silenced, at)
  }

  predicate Suppressed(redis: map<string, Micros>, device: string, v: Visit) {
    v.getOk && device in redis && v.checkAt < redis[device]
  }

  function Remember(h: History, q: Request, t: Threshold): History {
    if t.kind == Change then h[LastValueKey(q.device, q.metric) := q.value] else h
  }

  /** A fired threshold that is neither silenced nor suppressed. */
  function Alarm(w: World, q: Request, alert: Alert, v: Visit): World {
    match v.insert
    case FailsClean => w
    case FailsApplied => w.(alerts := w.alerts + [alert])
    case Works =>
      w.(alerts := w.alerts + [alert], published := w.published + [Publication(alert, v.checkAt, v.insertAt, v.setAt)],
         redis := if v.mark == FailsClean then w.redis else w.redis[q.device := v.setAt + ALERT_TTL])
  }

  /** One turn of the loop. */
  function Consider(w: World, q: Request, t: Threshold, v: Visit): World {
    var w1 := w.(history := Remember(w.history, q, t));
    if !Fires(t, q.value, LastOf(w.history, LastValueKey(q.device, q.metric))) then w1
    else
      var alert := MakeAlert(q, t, v.triggeredAt);
      if q.silenced then (if v.insert == FailsClean then w1 else w1.(alerts := w1.alerts + [alert]))
      else if Suppressed(w.redis, q.device, v) then w1
      else Alarm(w1, q, alert, v)
  }

  /** The loop over the first `n` thresholds. */
  function Loop(w: World, q: Request, visits: seq<Visit>, n: nat): World
    requires n <= |q.thresholds| == |visits|
  {
    if n == 0 then w else Consider(Loop(w, q, visits, n - 1), q, q.thresholds[n - 1], visits[n - 1])
  }

  class AlertEvaluator {
    var lastValues: History
    var redis: map<string, Micros>
    var alerts: seq<Alert>
    var published: seq<Publication>

    function View(): World
      reads this
    {
      World(lastValues, redis, alerts, published)
    }

    constructor ()
      ensures View() == World(map[], map[], [], [])
    {
      lastValues, redis, alerts, published := map[], map[], [], [];
    }

    /** The verdict on the silence rules that came through. */
    method CheckSilenced(metric: string, silences: seq<Scope>) returns (silenced: bool)
      ensures silenced <==> exists s :: s in silences && Covers(s, metric)
    {
      for i := 0 to |silences|
        invariant forall s :: s in silences[..i] ==> !Covers(s, metric)
      {
        if silences[i].AllMetrics? || silences[i].metric == metric {
          assert silences[i] in silences && Covers(silences[i], metric);
          return true;
        }
        assert silences[..i + 1] == silences[..i] + [silences[i]];
      }
      assert silences[..|silences|] == silences;
      return false;
    }

    /** The switch over the kind of threshold. */
    method Check(q: Request, t: Threshold) returns (triggered: bool)
      modifies `lastValues
      ensures triggered <==> Fires(t, q.value, LastOf(old(lastValues), LastValueKey(q.device, q.metric)))
      ensures lastValues == Remember(old(lastValues), q, t)
    {
      var key := LastValueKey(q.device, q.metric);
      triggered := false;
      match t.kind {
        case High => triggered := q.value > t.upper;
        case Low => triggered := q.value < t.lower;
        case Range => triggered := q.value < t.lower || q.value > t.upper;
        case Change =>
          if key in lastValues && lastValues[key] != 0.0 {
            var percentChange := (q.value - lastValues[key]) / lastValues[key] * 100.0;
            triggered := percentChange > t.changePercent || percentChange < -t.changePercent;
          }
          lastValues := lastValues[key := q.value];
      }
    }

    /** Inserts the alert; reports whether the insert returned without error. */
    method InsertAlert(alert: Alert, insert: Outcome) returns (ok: bool)
      modifies `alerts
      ensures ok <==> insert == Works
      ensures alerts == old(alerts) + (if insert == FailsClean then [] else [alert])
    {
      if insert != FailsClean {
        alerts := alerts + [alert];
      }
      ok := insert == Works;
    }

    method Evaluate(q: Request, visits: seq<Visit>)
      requires |visits| == |q.thresholds|
      modifies this
      ensures View() == Loop(old(View()), q, visits, |q.thresholds|)
    {
      for i := 0 to |q.thresholds|
        invariant View() == Loop(old(View()), q, visits, i)
      {
        var t, v := q.thresholds[i], visits[i];
        var triggered := Check(q, t);
        if !triggered {
          continue;
        }
        var bound := t.upper;
        if t.upper == 0.0 {
          bound := t.lower;
        }
        var alert := Alert(q.device, q.metric, q.value, t.kind, bound, t.severity, q.silenced, v.triggeredAt);
        if q.silenced {
          var _ := InsertAlert(alert, v.insert);
          continue;
        }
        if v.getOk && q.device in redis && v.checkAt < redis[q.device] {
          continue;
        }
        var ok := InsertAlert(alert, v.insert);
        if !ok {
          continue;
        }
        published := published + [Publication(alert, v.checkAt, v.insertAt, v.setAt)];
        if v.mark != FailsClean {
          redis := redis[q.device := v.setAt + ALERT_TTL];
        }
      }
    }
  }

  // ---------- one evaluation ----------

  /** Threshold `i` fires: only an earlier CHANGE threshold of the same evaluation can have changed the history. */
  predicate FiresAt(h: History, q: Request, i: nat)
    requires i < |q.thresholds|
  {
    var seen := exists j :: 0 <= j < i && q.thresholds[j].kind == Change;
    Fires(q.thresholds[i], q.value, if seen then Last(q.value) else LastOf(h, LastValueKey(q.device, q.metric)))
  }

  lemma {:induction false} LoopHistory(w: World, q: Request, visits: seq<Visit>, n: nat)
    requires n <= |q.thresholds| == |visits|
    ensures Loop(w, q, visits, n).history ==
      if exists j :: 0 <= j < n && q.thresholds[j].kind == Change then w.history[LastValueKey(q.device, q.metric) := q.value] else w.history
  {
    if n > 0 {
      LoopHistory(w, q, visits, n - 1);
    }
  }

  lemma FiresInLoop(w: World, q: Request, visits: seq<Visit>, i: nat)
    requires i < |q.thresholds| == |visits|
    ensures Fires(q.thresholds[i], q.value, LastOf(Loop(w, q, visits, i).history, LastValueKey(q.device, q.metric))) <==> FiresAt(w.history, q, i)
  {
    LoopHistory(w, q, visits, i);
  }

  /** The alerts a silenced evaluation records: one for each threshold that fires, unless its insert is lost. */
  function SilencedAlerts(h: History, q: Request, visits: seq<Visit>, n: nat): seq<Alert>
    requires n <= |q.thresholds| == |visits|
  {
    if n == 0 then []
    else
      var recorded := FiresAt(h, q, n - 1) && visits[n - 1].insert != FailsClean;
      SilencedAlerts(h, q, visits, n - 1)
      + if recorded then [MakeAlert(q, q.thresholds[n - 1], visits[n - 1].triggeredAt)] else []
  }

  /** A silenced evaluation records every threshold that fires as silenced, publishes nothing and
      leaves the Redis key alone. */
  lemma {:induction false} SilencedRecordsAll(w: World, q: Request, visits: seq<Visit>, n: nat)
    requires n <= |q.thresholds| == |visits| && q.silenced
    ensures var w' := Loop(w, q, visits, n);
      && w'.published == w.published && w'.redis == w.redis
      && w'.alerts == w.alerts + SilencedAlerts(w.history, q, visits, n)
    ensures forall a :: a in SilencedAlerts(w.history, q, visits, n) ==> a.silenced
  {
    if n > 0 {
      SilencedRecordsAll(w, q, visits, n - 1);
      FiresInLoop(w, q, visits, n - 1);
    }
  }

  /** Redis works, and each check comes after the sets before it and within their TTL. */
  ghost predicate Prompt(visits: seq<Visit>) {
    && (forall i :: 0 <= i < |visits| ==> visits[i].getOk && visits[i].mark == Works)
    && (forall i, j :: 0 <= i < j < |visits| ==> visits[i].setAt <= visits[j].checkAt < visits[i].setAt + ALERT_TTL)
  }

  /** Threshold `i` would raise the alarm if it were the first: it fires, the key the evaluation
      found does not suppress it, and its insert succeeds. */
  predicate Candidate(w: World, q: Request, visits: seq<Visit>, i: nat)
    requires i < |q.thresholds| == |visits|
  {
    FiresAt(w.history, q, i) && !Suppressed(w.redis, q.device, visits[i]) && visits[i].insert == Works
  }

  /** The first candidate among the first `n` thresholds, or `n`. */
  function First(w: World, q: Request, visits: seq<Visit>, n: nat): (f: nat)
    requires n <= |q.thresholds| == |visits|
    ensures f <= n && (f < n ==> Candidate(w, q, visits, f)) && forall i: nat :: i < f ==> !Candidate(w, q, visits, i)
  {
    if n == 0 then 0
    else
      var f := First(w, q, visits, n - 1);
      if f < n - 1 || Candidate(w, q, visits, n - 1) then f else n
  }

  /** What one turn does to publications and key, when not silenced and with the key's write going through. */
  lemma TurnPublishes(w: World, q: Request, t: Threshold, v: Visit)
    requires !q.silenced && v.mark == Works
    ensures var w' := Consider(w, q, t, v);
      if Fires(t, q.value, LastOf(w.history, LastValueKey(q.device, q.metric))) && !Suppressed(w.redis, q.device, v) && v.insert == Works then
        && w'.published == w.published + [Publication(MakeAlert(q, t, v.triggeredAt), v.checkAt, v.insertAt, v.setAt)]
        && w'.redis == w.redis[q.device := v.setAt + ALERT_TTL]
      else w'.published == w.published && w'.redis == w.redis
  {
  }

  /** From `w` to `w'` the alert of threshold `f` was published and set the key; nothing was, if `f == n`. */
  predicate PublishedBy(w: World, w': World, q: Request, visits: seq<Visit>, n: nat, f: nat)
    requires f <= n <= |q.thresholds| == |visits|
  {
    if f < n then
      && w'.published == w.published + [Publication(MakeAlert(q, q.thresholds[f], visits[f].triggeredAt), visits[f].checkAt, visits[f].insertAt, visits[f].setAt)]
      && w'.redis == w.redis[q.device := visits[f].setAt + ALERT_TTL]
    else w'.published == w.published && w'.redis == w.redis
  }

  lemma TurnExtends(w: World, w1: World, q: Request, visits: seq<Visit>, n: nat, f: nat)
    requires f <= n < |q.thresholds| == |visits| && !q.silenced && PublishedBy(w, w1, q, visits, n, f)
    requires visits[n].mark == Works && visits[n].getOk && (f < n ==> visits[n].checkAt < visits[f].setAt + ALERT_TTL)
    ensures var fires := Fires(q.thresholds[n], q.value, LastOf(w1.history, LastValueKey(q.device, q.metric)));
      var candidate := fires && !Suppressed(w.redis, q.device, visits[n]) && visits[n].insert == Works;
      PublishedBy(w, Consider(w1, q, q.thresholds[n], visits[n]), q, visits, n + 1, if f < n || candidate then f else n + 1)
  {
    TurnPublishes(w1, q, q.thresholds[n], visits[n]);
  }

  /** An unsilenced, prompt evaluation publishes at most one alert: that of the first candidate. */
  lemma {:induction false} PublishesFirstOnly(w: World, q: Request, visits: seq<Visit>, n: nat)
    requires n <= |q.thresholds| == |visits| && !q.silenced && Prompt(visits)
    ensures PublishedBy(w, Loop(w, q, visits, n), q, visits, n, First(w, q, visits, n))
  {
    if n > 0 {
      PublishesFirstOnly(w, q, visits, n - 1);
      FiresInLoop(w, q, visits, n - 1);
      TurnExtends(w, Loop(w, q, visits, n - 1), q, visits, n - 1, First(w, q, visits, n - 1));
    }
  }

  // ---------- values and bounds ----------

  /** The last value CHANGE threshold `i` compares with. */
  function Before(h: History, q: Request, i: nat): Last
    requires i < |q.thresholds|
  {
    if exists j :: 0 <= j < i && q.thresholds[j].kind == Change then Last(q.value) else LastOf(h, LastValueKey(q.device, q.metric))
  }

  /** The value breaks threshold `i`, in terms of values and bounds. */
  predicate Breaks(h: History, q: Request, i: nat)
    requires i < |q.thresholds|
  {
    var t := q.thresholds[i];
    || (t.kind == High && q.value > t.upper)
    || (t.kind == Low && q.value < t.lower)
    || (t.kind == Range && !(t.lower <= q.value <= t.upper))
    || (t.kind == Change && Before(h, q, i).Last? && Before(h, q, i).value != 0.0
        && 100.0 * Abs(q.value - Before(h, q, i).value) > t.changePercent * Abs(Before(h, q, i).value))
  }

  lemma BreaksIffFires(h: History, q: Request, i: nat)
    requires i < |q.thresholds|
    ensures FiresAt(h, q, i) <==> Breaks(h, q, i)
  {
    BoundsFireIff(q.thresholds[i], q.value, Before(h, q, i));
    if q.thresholds[i].kind == Change {
      ChangeFiresIff(q.thresholds[i], q.value, Before(h, q, i));
    }
  }

  /** What an alert raised by threshold `t` says. */
  predicate Tells(a: Alert, q: Request, t: Threshold, v: Visit) {
    && a.device == q.device && a.metric == q.metric && a.value == q.value && a.silenced == q.silenced
    && a.kind == t.kind && a.severity == t.severity && a.triggeredAt == v.triggeredAt
    && (t.upper != 0.0 ==> a.bound == t.upper) && (t.upper == 0.0 ==> a.bound == t.lower)
  }

  lemma {:induction false} RecordsFiring(h: History, q: Request, visits: seq<Visit>, n: nat, i: nat)
    requires i < n <= |q.thresholds| == |visits| && FiresAt(h, q, i) && visits[i].insert != FailsClean
    ensures MakeAlert(q, q.thresholds[i], visits[i].triggeredAt) in SilencedAlerts(h, q, visits, n)
  {
    if i < n - 1 {
      RecordsFiring(h, q, visits, n - 1, i);
    }
  }

  lemma {:induction false} RecordedFires(h: History, q: Request, visits: seq<Visit>, n: nat, a: Alert) returns (i: nat)
    requires n <= |q.thresholds| == |visits| && a in SilencedAlerts(h, q, visits, n)
    ensures i < n && FiresAt(h, q, i) && a == MakeAlert(q, q.thresholds[i], visits[i].triggeredAt)
  {
    if a in SilencedAlerts(h, q, visits, n - 1) {
      i := RecordedFires(h, q, visits, n - 1, a);
    } else {
      i := n - 1;
    }
  }

  /** Some alert is of that kind. */
  ghost predicate SomeOf(alerts: seq<Alert>, kind: Kind) {
    exists a :: a in alerts && a.kind == kind
  }

  /** Threshold `i` is of that kind and broken. */
  predicate BrokenOf(h: History, q: Request, i: int, kind: Kind) {
    0 <= i < |q.thresholds| && q.thresholds[i].kind == kind && Breaks(h, q, i)
  }

  lemma RecordedKind(h: History, q: Request, visits: seq<Visit>, kind: Kind) returns (i: int)
    requires |visits| == |q.thresholds| && SomeOf(SilencedAlerts(h, q, visits, |visits|), kind)
    ensures BrokenOf(h, q, i, kind)
  {
    var a :| a in SilencedAlerts(h, q, visits, |visits|) && a.kind == kind;
    i := RecordedFires(h, q, visits, |visits|, a);
    BreaksIffFires(h, q, i);
  }

  lemma KindRecorded(h: History, q: Request, visits: seq<Visit>, kind: Kind, i: int)
    requires |visits| == |q.thresholds| && BrokenOf(h, q, i, kind) && visits[i].insert != FailsClean
    ensures SomeOf(SilencedAlerts(h, q, visits, |visits|), kind)
  {
    BreaksIffFires(h, q, i);
    RecordsFiring(h, q, visits, |visits|, i);
  }

  lemma SilencedKinds(h: History, q: Request, visits: seq<Visit>, kind: Kind)
    requires |visits| == |q.thresholds| && forall i :: 0 <= i < |visits| ==> visits[i].insert != FailsClean
    ensures SomeOf(SilencedAlerts(h, q, visits, |visits|), kind) <==> exists i :: BrokenOf(h, q, i, kind)
  {
    if SomeOf(SilencedAlerts(h, q, visits, |visits|), kind) {
      var i := RecordedKind(h, q, visits, kind);
    } else {
      forall i ensures !BrokenOf(h, q, i, kind) {
        if BrokenOf(h, q, i, kind) { KindRecorded(h, q, visits, kind, i); }
      }
    }
  }

  predicate HighBroken(q: Request, i: int) {
    0 <= i < |q.thresholds| && q.thresholds[i].kind == High && q.value > q.thresholds[i].upper
  }

  predicate LowBroken(q: Request, i: int) {
    0 <= i < |q.thresholds| && q.thresholds[i].kind == Low && q.value < q.thresholds[i].lower
  }

  predicate RangeBroken(q: Request, i: int) {
    0 <= i < |q.thresholds| && q.thresholds[i].kind == Range && (q.value < q.thresholds[i].lower || q.value > q.thresholds[i].upper)
  }

  /** A silenced evaluation whose inserts take effect records a HIGH alert if and only if the value is above the
      upper bound of a HIGH threshold, a LOW alert if and only if it is below the lower bound of a LOW one, and
      a RANGE alert if and only if it is outside the bounds of a RANGE one. */
  lemma SilencedByBounds(w: World, q: Request, visits: seq<Visit>)
    requires |visits| == |q.thresholds| && q.silenced && forall i :: 0 <= i < |visits| ==> visits[i].insert != FailsClean
    ensures var alerts := Loop(w, q, visits, |visits|).alerts;
      && |alerts| >= |w.alerts| && alerts[..|w.alerts|] == w.alerts
      && (SomeOf(alerts[|w.alerts|..], High) <==> exists i :: HighBroken(q, i))
      && (SomeOf(alerts[|w.alerts|..], Low) <==> exists i :: LowBroken(q, i))
      && (SomeOf(alerts[|w.alerts|..], Range) <==> exists i :: RangeBroken(q, i))
  {
    SilencedRecordsAll(w, q, visits, |visits|);
    assert Loop(w, q, visits, |visits|).alerts[|w.alerts|..] == SilencedAlerts(w.history, q, visits, |visits|);
    SilencedKinds(w.history, q, visits, High);
    SilencedKinds(w.history, q, visits, Low);
    SilencedKinds(w.history, q, visits, Range);
    forall i ensures BrokenOf(w.history, q, i, High) <==> HighBroken(q, i) {}
    forall i ensures BrokenOf(w.history, q, i, Low) <==> LowBroken(q, i) {}
    forall i ensures BrokenOf(w.history, q, i, Range) <==> RangeBroken(q, i) {}
  }

  /** What the alerts of a silenced evaluation say: each tells of a threshold that is broken. */
  lemma SilencedTells(w: World, q: Request, visits: seq<Visit>, k: nat) returns (i: nat)
    requires |visits| == |q.thresholds| && q.silenced
    requires |w.alerts| <= k < |Loop(w, q, visits, |visits|).alerts|
    ensures i < |visits| && Breaks(w.history, q, i) && Tells(Loop(w, q, visits, |visits|).alerts[k], q, q.thresholds[i], visits[i])
  {
    var a := Loop(w, q, visits, |visits|).alerts[k];
    SilencedRecordsAll(w, q, visits, |visits|);
    assert a == SilencedAlerts(w.history, q, visits, |visits|)[k - |w.alerts|];
    i := RecordedFires(w.history, q, visits, |visits|, a);
    BreaksIffFires(w.history, q, i);
  }

  /** Redis answered check `i` with a live key. */
  predicate KeyLiveAt(w: World, q: Request, v: Visit) {
    v.getOk && q.device in w.redis && v.checkAt < w.redis[q.device]
  }

  /** Threshold `i` would raise the first alarm. */
  predicate Alarms(w: World, q: Request, visits: seq<Visit>, i: nat)
    requires i < |q.thresholds| == |visits|
  {
    Breaks(w.history, q, i) && !KeyLiveAt(w, q, visits[i]) && visits[i].insert == Works
  }

  /** An unsilenced, prompt evaluation publishes nothing and leaves the key if no threshold is broken, unsuppressed
      and inserted; otherwise it publishes one alert, which tells of the first such threshold. */
  lemma FirstAlarmPublished(w: World, q: Request, visits: seq<Visit>)
    requires |visits| == |q.thresholds| && !q.silenced && Prompt(visits)
    ensures var w' := Loop(w, q, visits, |visits|);
      if forall i :: 0 <= i < |visits| ==> !Alarms(w, q, visits, i) then w'.published == w.published && w'.redis == w.redis
      else
        exists f :: 0 <= f < |visits| && Alarms(w, q, visits, f) && (forall i :: 0 <= i < f ==> !Alarms(w, q, visits, i))
          && |w'.published| == |w.published| + 1 && w'.published[..|w.published|] == w.published
          && Tells(w'.published[|w.published|].alert, q, q.thresholds[f], visits[f])
          && w'.redis == w.redis[q.device := visits[f].setAt + 300_000_000]
  {
    var n := |visits|;
    var f := First(w, q, visits, n);
    PublishesFirstOnly(w, q, visits, n);
    forall i | 0 <= i < n ensures Alarms(w, q, visits, i) <==> Candidate(w, q, visits, i) { BreaksIffFires(w.history, q, i); }
    if f < n {
      assert Alarms(w, q, visits, f);
      assert Tells(MakeAlert(q, q.thresholds[f], visits[f].triggeredAt), q, q.thresholds[f], visits[f]);
    }
  }

  /** A value that breaks no threshold leaves alerts, publications and key as they were, silenced or not. */
  lemma {:induction false} WithinBoundsIsQuiet(w: World, q: Request, visits: seq<Visit>, n: nat)
    requires n <= |q.thresholds| == |visits| && forall i :: 0 <= i < n ==> !Breaks(w.history, q, i)
    ensures var w' := Loop(w, q, visits, n);
      w'.alerts == w.alerts && w'.published == w.published && w'.redis == w.redis
  {
    if n > 0 {
      WithinBoundsIsQuiet(w, q, visits, n - 1);
      FiresInLoop(w, q, visits, n - 1);
      BreaksIffFires(w.history, q, n - 1);
    }
  }

  // ---------- series of evaluations ----------

  datatype Call = Call(request: Request, visits: seq<Visit>)

  ghost predicate Proper(calls: seq<Call>) {
    forall i :: 0 <= i < |calls| ==> |calls[i].visits| == |calls[i].request.thresholds|
  }

  /** Evaluations one after the other. */
  function Series(w: World, calls: seq<Call>): World
    requires Proper(calls)
  {
    if calls == [] then w
    else
      var c := calls[|calls| - 1];
      Loop(Series(w, calls[..|calls| - 1]), c.request, c.visits, |c.visits|)
  }

  /** Published alerts of a device were recorded a TTL apart: each is recorded between its check and the key's
      write, its check comes a TTL after the write behind any earlier one, and the key lasts as long. */
  ghost predicate Spaced(w: World) {
    && (forall i :: 0 <= i < |w.published| ==> w.published[i].checkedAt <= w.published[i].recordedAt <= w.published[i].setAt)
    && (forall i, j :: 0 <= i < j < |w.published| && w.published[i].alert.device == w.published[j].alert.device ==>
          && w.published[j].checkedAt - w.published[i].setAt >= ALERT_TTL
          && w.published[j].recordedAt - w.published[i].recordedAt >= ALERT_TTL)
    && (forall i :: 0 <= i < |w.published| ==>
          w.published[i].alert.device in w.redis && w.redis[w.published[i].alert.device] >= w.published[i].setAt + ALERT_TTL)
  }

  /** Redis works, and an alert is inserted after its check and before its key is set. */
  predicate Healthy(v: Visit) {
    v.getOk && v.mark == Works && v.checkAt <= v.insertAt <= v.setAt
  }

  lemma ConsiderKeepsSpaced(w: World, q: Request, t: Threshold, v: Visit)
    requires Spaced(w) && Healthy(v)
    ensures Spaced(Consider(w, q, t, v))
  {
  }

  lemma {:induction false} LoopKeepsSpaced(w: World, q: Request, visits: seq<Visit>, n: nat)
    requires n <= |q.thresholds| == |visits| && Spaced(w) && forall i :: 0 <= i < |visits| ==> Healthy(visits[i])
    ensures Spaced(Loop(w, q, visits, n))
  {
    if n > 0 {
      LoopKeepsSpaced(w, q, visits, n - 1);
      ConsiderKeepsSpaced(Loop(w, q, visits, n - 1), q, q.thresholds[n - 1], visits[n - 1]);
    }
  }

  /** In serial runs with a working Redis, the published alerts of one device are recorded at least 300 s
      apart, over any series of evaluations of any metrics. */
  lemma SerialAlertsSpaced(calls: seq<Call>)
    requires Proper(calls) && forall i, k :: 0 <= i < |calls| && 0 <= k < |calls[i].visits| ==> Healthy(calls[i].visits[k])
    ensures var published := Series(World(map[], map[], [], []), calls).published;
      forall i, j :: 0 <= i < j < |published| && published[i].alert.device == published[j].alert.device ==>
        published[j].recordedAt - published[i].recordedAt >= 300_000_000
  {
    SeriesSpaced(calls);
  }

  lemma {:induction false} SeriesSpaced(calls: seq<Call>)
    requires Proper(calls) && forall i, k :: 0 <= i < |calls| && 0 <= k < |calls[i].visits| ==> Healthy(calls[i].visits[k])
    ensures Spaced(Series(World(map[], map[], [], []), calls))
  {
    if calls != [] {
      var c := calls[|calls| - 1];
      SeriesSpaced(calls[..|calls| - 1]);
      LoopKeepsSpaced(Series(World(map[], map[], [], []), calls[..|calls| - 1]), c.request, c.visits, |c.visits|);
    }
  }

  predicate HasChange(q: Request) {
    exists j :: 0 <= j < |q.thresholds| && q.thresholds[j].kind == Change
  }

  /** The value of the latest evaluation with a CHANGE threshold whose joined name is `key`. */
  function LastChange(calls: seq<Call>, key: string): Last {
    if calls == [] then NoLast
    else
      var q := calls[|calls| - 1].request;
      if LastValueKey(q.device, q.metric) == key && HasChange(q) then Last(q.value)
      else LastChange(calls[..|calls| - 1], key)
  }

  /** In serial runs the history is the latest value evaluated under a CHANGE threshold, of any series that
      reads the same once its device and metric are joined. */
  lemma {:induction false} HistoryIsLastChange(calls: seq<Call>, key: string)
    requires Proper(calls)
    ensures LastOf(Series(World(map[], map[], [], []), calls).history, key) == LastChange(calls, key)
  {
    if calls != [] {
      var init, c := calls[..|calls| - 1], calls[|calls| - 1];
      HistoryIsLastChange(init, key);
      LoopHistory(Series(World(map[], map[], [], []), init), c.request, c.visits, |c.visits|);
    }
  }

  ghost predicate Named(calls: seq<Call>) {
    forall i :: 0 <= i < |calls| ==> calls[i].request.device != "" && calls[i].request.metric != ""
  }

  /** The value of the latest evaluation of this device and metric that had a CHANGE threshold. */
  function LastOwnChange(calls: seq<Call>, device: string, metric: string): Last {
    if calls == [] then NoLast
    else
      var q := calls[|calls| - 1].request;
      if q.device == device && q.metric == metric && HasChange(q) then Last(q.value)
      else LastOwnChange(calls[..|calls| - 1], device, metric)
  }

  /** When no colon makes the joined name ambiguous, that series is the device and metric itself. */
  lemma {:induction false} ClearNamesKeepApart(calls: seq<Call>, device: string, metric: string)
    requires Named(calls) && device != "" && metric != ""
    requires ':' !in device[1..] && ':' !in metric[..|metric| - 1]
    ensures LastChange(calls, LastValueKey(device, metric)) == LastOwnChange(calls, device, metric)
  {
    if calls != [] {
      ClearNamesKeepApart(calls[..|calls| - 1], device, metric);
      UnambiguousIff(device, metric);
    }
  }

  predicate OnlyChangeSoFar(q: Request, i: nat) {
    i < |q.thresholds| && q.thresholds[i].kind == Change && forall j :: 0 <= j < i ==> q.thresholds[j].kind != Change
  }

  lemma FirstChangeFiresIff(h: History, q: Request, i: nat)
    requires OnlyChangeSoFar(q, i)
    ensures FiresAt(h, q, i) <==> ChangedEnough(q.thresholds[i], q.value, LastOf(h, LastValueKey(q.device, q.metric)))
  {
    ChangeFiresIff(q.thresholds[i], q.value, LastOf(h, LastValueKey(q.device, q.metric)));
  }

  /** A metric's only CHANGE threshold fires, in serial runs, exactly when the latest value evaluated under
      one, of a series with the same joined name, is there, is not zero, and differs from the new one by more
      than change_percent of its size. For clear names that series is its own. */
  lemma ChangeFiresOnLatest(calls: seq<Call>, q: Request, i: nat)
    requires Proper(calls) && OnlyChangeSoFar(q, i)
    ensures FiresAt(Series(World(map[], map[], [], []), calls).history, q, i) <==>
      ChangedEnough(q.thresholds[i], q.value, LastChange(calls, LastValueKey(q.device, q.metric)))
  {
    HistoryIsLastChange(calls, LastValueKey(q.device, q.metric));
    FirstChangeFiresIff(Series(World(map[], map[], [], []), calls).history, q, i);
  }
}
