/** Alert evaluation, silencing and suppression as a step system: any number of evaluator goroutines and
    SilenceAlert calls, the silence rules in the database, and the device-wide Redis key that is read and
    written in separate steps. The log is the history of what happened, in order. */
module Alerts {
  import opened Common
  import opened Keys
  import opened Thresholds

  datatype Rule = Rule(device: string, scope: Scope, until: Micros)

  /** Where an evaluation is; `i` is the threshold it is at, `check` the log position of the suppression
      check that threshold passed. */
  datatype Pc =
    | Lookup
    | Scan(i: nat)
    | Store(i: nat, fires: bool)
    | Decide(i: nat)
    | Check(i: nat)
    | Record(i: nat, check: nat)
    | Publish(i: nat, check: nat)
    | Mark(i: nat, check: nat)
    | Finished

  datatype Eval = Eval(device: string, metric: string, value: real, thresholds: seq<Threshold>, silenced: bool, pc: Pc)

  /** Where a SilenceAlert call is. */
  datatype Silencer =
    | Reading(device: string, scope: Scope, seconds: int)
    | Inserting(device: string, scope: Scope, until: Micros)
    | Caching(device: string)
    | Replied(ok: bool)

  datatype Event =
    | Silenced(device: string, at: Micros, scope: Scope, until: Micros)
    | Cleared(device: string, at: Micros)
    | LookedUp(device: string, at: Micros, eval: nat, metric: string, ok: bool, silenced: bool)
    | KeySet(device: string, at: Micros)
    | Checked(device: string, at: Micros, eval: nat, redisOk: bool, passed: bool)
    | RecordedSilenced(device: string, at: Micros, eval: nat)
    | Recorded(device: string, at: Micros, eval: nat, check: nat)
    | Published(device: string, at: Micros, eval: nat)

  datatype State = State(
    now: Micros,
    redis: map<string, Micros>,
    devices: set<string>,
    rules: set<Rule>,
    history: History,
    evals: map<nat, Eval>,
    silencers: map<nat, Silencer>,
    log: seq<Event>)

  datatype Action =
    | Tick(elapsed: nat)
    | Expire(device: string)
    | Register(device: string)
    | Evaluate(e: nat, device: string, metric: string, value: real, thresholds: seq<Threshold>)
    | Advance(e: nat, outcome: Outcome)
    | SilenceAlert(c: nat, device: string, metric: string, seconds: int)
    | AdvanceSilence(c: nat, outcome: Outcome)
    | ClearSilence(device: string, outcome: Outcome)

  function Init(now: Micros): State {
    State(now, map[], {}, {}, map[], map[], map[], [])
  }

  /** The state after a step, apart from the log, and what the step adds to the log. */
  datatype Effect = Effect(state: State, events: seq<Event>)

  function Quietly(s: State): Effect {
    Effect(s, [])
  }

  /** checkSilenced on the rules GetActiveSilences returns. */
  predicate IsSilenced(rules: set<Rule>, device: string, metric: string, now: Micros) {
    exists r :: r in rules && r.device == device && now < r.until && Covers(r.scope, metric)
  }

  predicate KeyLive(s: State, device: string) {
    device in s.redis && s.now < s.redis[device]
  }

  function SetKey(s: State, device: string): Effect {
    Effect(s.(redis := s.redis[device := s.now + ALERT_TTL]), [KeySet(device, s.now)])
  }

  /** The unique constraint on (device, metric) does not apply to rules without a metric. */
  predicate Clashes(rules: set<Rule>, device: string, scope: Scope) {
    scope.OneMetric? && exists r :: r in rules && r.device == device && r.scope == scope
  }

  /** What the constraints of the rules table refuse. */
  predicate Refuses(s: State, device: string, scope: Scope) {
    device !in s.devices || Clashes(s.rules, device, scope)
  }

  /** The verdict of the silence lookup. Its error is ignored: the rules that came through are used, if any did. */
  predicate FoundSilenced(s: State, v: Eval, o: Outcome) {
    o != FailsClean && IsSilenced(s.rules, v.device, v.metric, s.now)
  }

  /** A Redis error counts as not suppressed. */
  predicate PassesCheck(s: State, v: Eval, o: Outcome) {
    o != Works || !KeyLive(s, v.device)
  }

  /** Where an evaluation goes from where it is. */
  function NextPc(s: State, v: Eval, o: Outcome): Pc {
    match v.pc
    case Lookup => Scan(0)
    case Scan(i) =>
      if i >= |v.thresholds| then Finished
      else
        var fires := Fires(v.thresholds[i], v.value, LastOf(s.history, LastValueKey(v.device, v.metric)));
        if v.thresholds[i].kind == Change then Store(i, fires) else if fires then Decide(i) else Scan(i + 1)
    case Store(i, fires) => if fires then Decide(i) else Scan(i + 1)
    case Decide(i) => if v.silenced then Scan(i + 1) else Check(i)
    case Check(i) => if PassesCheck(s, v, o) then Record(i, |s.log|) else Scan(i + 1)
    case Record(i, check) => if o == Works then Publish(i, check) else Scan(i + 1)
    case Publish(i, check) => Mark(i, check)
    case Mark(i, _) => Scan(i + 1)
    case Finished => Finished
  }

  function NextEval(s: State, v: Eval, o: Outcome): Eval {
    v.(silenced := if v.pc.Lookup? then FoundSilenced(s, v, o) else v.silenced, pc := NextPc(s, v, o))
  }

  function AdvanceEval(s: State, e: nat, o: Outcome): Effect
    requires e in s.evals
  {
    var v := s.evals[e];
    var s' := s.(evals := s.evals[e := NextEval(s, v, o)]);
    match v.pc
    case Lookup => Effect(s', [LookedUp(v.device, s.now, e, v.metric, o == Works, FoundSilenced(s, v, o))])
    case Store(_, _) => Quietly(s'.(history := s.history[LastValueKey(v.device, v.metric) := v.value]))
    case Decide(_) => Effect(s', if v.silenced && o != FailsClean then [RecordedSilenced(v.device, s.now, e)] else [])
    case Check(_) => Effect(s', [Checked(v.device, s.now, e, o == Works, PassesCheck(s, v, o))])
    case Record(_, check) => Effect(s', if o == FailsClean then [] else [Recorded(v.device, s.now, e, check)])
    case Publish(_, _) => Effect(s', if o == FailsClean then [] else [Published(v.device, s.now, e)])
    case Mark(_, _) => if o == FailsClean then Quietly(s') else SetKey(s', v.device)
    case _ => Quietly(s')
  }

  function AdvanceSilencer(s: State, c: nat, o: Outcome): Effect
    requires c in s.silencers
  {
    match s.silencers[c]
    case Reading(device, scope, seconds) =>
      Quietly(s.(silencers := s.silencers[c := Inserting(device, scope, s.now + seconds * SECOND)]))
    case Inserting(device, scope, until) =>
      if o == FailsClean || Refuses(s, device, scope) then Quietly(s.(silencers := s.silencers[c := Replied(false)]))
      else
        Effect(s.(rules := s.rules + {Rule(device, scope, until)},
                  silencers := s.silencers[c := if o == Works then Caching(device) else Replied(false)]),
               [Silenced(device, s.now, scope, until)])
    case Caching(device) =>
      var s' := s.(silencers := s.silencers[c := Replied(true)]);
      if o == FailsClean then Quietly(s') else SetKey(s', device)
    case Replied(_) => Quietly(s)
  }

  function ScopeOf(metric: string): Scope {
    if metric == "" then AllMetrics else OneMetric(metric)
  }

  function Opening(device: string, metric: string, seconds: int): Silencer {
    if device == "" || seconds <= 0 then Replied(false)
    else Reading(device, ScopeOf(metric), seconds)
  }

  function Act(s: State, a: Action): Effect {
    match a
    case Tick(elapsed) => Quietly(s.(now := s.now + elapsed))
    case Expire(d) => Quietly(if d in s.redis && s.redis[d] <= s.now then s.(redis := s.redis - {d}) else s)
    case Register(d) => Quietly(s.(devices := s.devices + {d}))
    case Evaluate(e, device, metric, value, thresholds) =>
      Quietly(if e in s.evals then s else s.(evals := s.evals[e := Eval(device, metric, value, thresholds, false, Lookup)]))
    case Advance(e, o) => if e in s.evals then AdvanceEval(s, e, o) else Quietly(s)
    case SilenceAlert(c, device, metric, seconds) =>
      Quietly(if c in s.silencers then s else s.(silencers := s.silencers[c := Opening(device, metric, seconds)]))
    case AdvanceSilence(c, o) => if c in s.silencers then AdvanceSilencer(s, c, o) else Quietly(s)
    case ClearSilence(device, o) =>
      if device == "" || o == FailsClean then Quietly(s)
      else Effect(s.(rules := set r | r in s.rules && r.device != device), [Cleared(device, s.now)])
  }

  function Step(s: State, a: Action): State {
    Act(s, a).state.(log := s.log + Act(s, a).events)
  }

  function Run(s: State, schedule: seq<Action>): State {
    if schedule == [] then s else Step(Run(s, schedule[..|schedule| - 1]), schedule[|schedule| - 1])
  }

  // ---------- the Redis key ----------

  ghost predicate TimeInv(s: State) {
    && (forall i :: 0 <= i < |s.log| ==> s.log[i].at <= s.now)
    && (forall i, j :: 0 <= i < j < |s.log| ==> s.log[i].at <= s.log[j].at)
  }

  /** A key set less than a TTL ago is still there. */
  predicate KeyKept(s: State, v: Event) {
    v.KeySet? && s.now < v.at + ALERT_TTL ==> v.device in s.redis && s.redis[v.device] >= v.at + ALERT_TTL
  }

  ghost predicate KeyInv(s: State) {
    forall i :: 0 <= i < |s.log| ==> KeyKept(s, s.log[i])
  }

  predicate Passes(v: Event) {
    v.Checked? && v.redisOk && v.passed
  }

  /** A check that a working Redis let pass comes a TTL after each earlier write of the key. */
  ghost predicate ChecksInv(log: seq<Event>) {
    forall i, j :: 0 <= i < j < |log| && log[i].KeySet? && Passes(log[j]) && log[i].device == log[j].device ==>
      log[i].at + ALERT_TTL <= log[j].at
  }

  /** A step logs at most one event, at the present time; a check that reached Redis passed unless it saw a live key. */
  lemma StepEvents(s: State, a: Action)
    ensures s.now <= Act(s, a).state.now
    ensures |Act(s, a).events| <= 1
    ensures Act(s, a).events != [] ==> Act(s, a).state.now == s.now && Act(s, a).events[0].at == s.now
    ensures Act(s, a).events != [] && Act(s, a).events[0].Checked? && Act(s, a).events[0].redisOk ==>
      (Act(s, a).events[0].passed <==> !KeyLive(s, Act(s, a).events[0].device))
  {
  }

  /** No key outlives its TTL. */
  ghost predicate TtlInv(s: State) {
    forall d :: d in s.redis ==> s.redis[d] <= s.now + ALERT_TTL
  }

  /** A step writes one key, lets one run out, or leaves Redis alone. */
  lemma KeyChange(s: State, a: Action)
    ensures var s', events := Act(s, a).state, Act(s, a).events;
      if events != [] && events[0].KeySet? then s'.now == s.now && s'.redis == s.redis[events[0].device := s.now + ALERT_TTL]
      else s'.redis == s.redis || (a.Expire? && s'.now == s.now && s'.redis == s.redis - {a.device} && a.device in s.redis && s.redis[a.device] <= s.now)
    ensures Act(s, a).state.now >= s.now
  {
  }

  /** How a step can change the Redis keys. */
  lemma StepRedis(s: State, a: Action)
    requires TtlInv(s)
    ensures TtlInv(Act(s, a).state)
    ensures forall d :: d in s.redis && Act(s, a).state.now < s.redis[d] ==>
      d in Act(s, a).state.redis && Act(s, a).state.redis[d] >= s.redis[d]
    ensures Act(s, a).events != [] && Act(s, a).events[0].KeySet? ==>
      var d := Act(s, a).events[0].device;
      d in Act(s, a).state.redis && Act(s, a).state.redis[d] == s.now + ALERT_TTL
  {
    KeyChange(s, a);
  }

  lemma StepKeepsTime(s: State, a: Action)
    requires TimeInv(s)
    ensures TimeInv(Step(s, a))
  {
    StepEvents(s, a);
  }

  lemma StepKeepsKeys(s: State, a: Action)
    requires KeyInv(s) && TtlInv(s)
    ensures KeyInv(Step(s, a))
  {
    var s' := Step(s, a);
    StepEvents(s, a);
    StepRedis(s, a);
    forall i | 0 <= i < |s'.log| ensures KeyKept(s', s'.log[i]) {
      if i < |s.log| {
        assert KeyKept(s, s.log[i]);
      }
    }
  }

  lemma StepKeepsChecks(s: State, a: Action)
    requires ChecksInv(s.log) && KeyInv(s)
    ensures ChecksInv(Step(s, a).log)
  {
    StepEvents(s, a);
    forall i | 0 <= i < |s.log| ensures KeyKept(s, s.log[i]) {}
  }

  /** `log[i]` wrote the key of `device` that runs out at `expiry`. */
  predicate WroteKey(log: seq<Event>, i: int, device: string, expiry: Micros) {
    0 <= i < |log| && log[i].KeySet? && log[i].device == device && log[i].at + ALERT_TTL == expiry
  }

  /** Nothing else writes keys. */
  ghost predicate FoundedInv(s: State) {
    forall d :: d in s.redis ==> exists i :: WroteKey(s.log, i, d, s.redis[d])
  }

  /** `log[i]` wrote the key of `device` less than a TTL before `t`. */
  predicate SetRecently(log: seq<Event>, i: int, device: string, t: Micros) {
    0 <= i < |log| && log[i].KeySet? && log[i].device == device && t < log[i].at + ALERT_TTL
  }

  /** A check that a working Redis suppressed has a recent write of the key before it. */
  ghost predicate SuppressedInv(log: seq<Event>) {
    forall j :: 0 <= j < |log| && log[j].Checked? && log[j].redisOk && !log[j].passed ==>
      exists i :: i < j && SetRecently(log, i, log[j].device, log[j].at)
  }

  lemma StepKeepsFounded(s: State, a: Action)
    requires FoundedInv(s)
    ensures FoundedInv(Step(s, a))
  {
    var s' := Step(s, a);
    StepEvents(s, a);
    KeyChange(s, a);
    forall d | d in s'.redis ensures exists i :: WroteKey(s'.log, i, d, s'.redis[d]) {
      if d in s.redis && s'.redis[d] == s.redis[d] {
        var i :| WroteKey(s.log, i, d, s.redis[d]);
        assert WroteKey(s'.log, i, d, s'.redis[d]);
      } else {
        assert WroteKey(s'.log, |s.log|, d, s'.redis[d]);
      }
    }
  }

  /** With the key's writes on record, a key is live exactly when one of them is recent. */
  lemma KeyLiveIff(s: State, device: string)
    requires FoundedInv(s) && KeyInv(s)
    ensures KeyLive(s, device) <==> exists i :: SetRecently(s.log, i, device, s.now)
  {
    forall i | SetRecently(s.log, i, device, s.now) ensures KeyLive(s, device) {
      assert KeyKept(s, s.log[i]);
    }
    if KeyLive(s, device) {
      var i :| WroteKey(s.log, i, device, s.redis[device]);
      assert SetRecently(s.log, i, device, s.now);
    }
  }

  lemma StepKeepsSuppressed(s: State, a: Action)
    requires SuppressedInv(s.log) && FoundedInv(s) && KeyInv(s)
    ensures SuppressedInv(Step(s, a).log)
  {
    var log := Step(s, a).log;
    StepEvents(s, a);
    forall j | 0 <= j < |log| && log[j].Checked? && log[j].redisOk && !log[j].passed
      ensures exists i :: i < j && SetRecently(log, i, log[j].device, log[j].at)
    {
      if j < |s.log| {
        assert log[j] == s.log[j];
        var i :| i < j && SetRecently(s.log, i, log[j].device, log[j].at);
        assert SetRecently(log, i, log[j].device, log[j].at);
      } else {
        KeyLiveIff(s, log[j].device);
        var i :| SetRecently(s.log, i, log[j].device, s.now);
        assert SetRecently(log, i, log[j].device, log[j].at);
      }
    }
  }

  // ---------- the silence rules ----------

  /** No Clear of `device` in log[from..to]. */
  predicate NoClear(log: seq<Event>, device: string, from: int, to: int) {
    forall k :: 0 <= from <= k < to <= |log| && log[k].Cleared? ==> log[k].device != device
  }

  /** A silence not cleared since is in the table. */
  predicate RuleKept(s: State, i: int)
    requires 0 <= i < |s.log|
  {
    s.log[i].Silenced? && NoClear(s.log, s.log[i].device, i, |s.log|) ==>
      Rule(s.log[i].device, s.log[i].scope, s.log[i].until) in s.rules
  }

  ghost predicate RulesInv(s: State) {
    forall i :: 0 <= i < |s.log| ==> RuleKept(s, i)
  }

  /** Rules disappear only by a Clear of their device, which leaves none; they appear only with a Silenced event. */
  lemma StepRules(s: State, a: Action)
    ensures forall r :: r in s.rules && r !in Act(s, a).state.rules ==>
      Act(s, a).events != [] && Act(s, a).events[0].Cleared? && Act(s, a).events[0].device == r.device
    ensures Act(s, a).events != [] && Act(s, a).events[0].Cleared? ==>
      forall r :: r in Act(s, a).state.rules ==> r in s.rules && r.device != Act(s, a).events[0].device
    ensures Act(s, a).events != [] && Act(s, a).events[0].Silenced? ==>
      Rule(Act(s, a).events[0].device, Act(s, a).events[0].scope, Act(s, a).events[0].until) in Act(s, a).state.rules
    ensures forall r :: r in Act(s, a).state.rules && r !in s.rules ==>
      Act(s, a).events != [] && Act(s, a).events[0] == Silenced(r.device, s.now, r.scope, r.until)
  {
  }

  lemma StepKeepsRules(s: State, a: Action)
    requires RulesInv(s)
    ensures RulesInv(Step(s, a))
  {
    var s' := Step(s, a);
    StepEvents(s, a);
    StepRules(s, a);
    forall i | 0 <= i < |s'.log| ensures RuleKept(s', i) {
      if i < |s.log| {
        assert RuleKept(s, i);
        assert |s'.log| > |s.log| ==> s'.log[|s.log|] == Act(s, a).events[0];
        if s.log[i].Silenced? && NoClear(s'.log, s.log[i].device, i, |s'.log|) {
          assert NoClear(s.log, s.log[i].device, i, |s.log|) by {
            forall k | i <= k < |s.log| && s.log[k].Cleared? ensures s.log[k].device != s.log[i].device {
              assert s'.log[k] == s.log[k];
            }
          }
        }
      }
    }
  }

  /** Log entry `i` made rule `r`, which was not cleared since. */
  predicate Founds(log: seq<Event>, i: int, r: Rule) {
    && 0 <= i < |log| && log[i].Silenced? && log[i].device == r.device && log[i].scope == r.scope && log[i].until == r.until
    && NoClear(log, r.device, i, |log|)
  }

  ghost predicate RulesFounded(s: State) {
    forall r :: r in s.rules ==> exists i :: Founds(s.log, i, r)
  }

  lemma StepKeepsRulesFounded(s: State, a: Action)
    requires RulesFounded(s)
    ensures RulesFounded(Step(s, a))
  {
    var s' := Step(s, a);
    StepEvents(s, a);
    StepRules(s, a);
    forall r | r in s'.rules ensures exists i :: Founds(s'.log, i, r) {
      if r in s.rules {
        var i :| Founds(s.log, i, r);
        forall k | i <= k < |s'.log| && s'.log[k].Cleared? ensures s'.log[k].device != r.device {
          if k < |s.log| { assert s'.log[k] == s.log[k]; }
        }
        assert Founds(s'.log, i, r);
      } else {
        assert Founds(s'.log, |s.log|, r);
      }
    }
  }

  /** Silence `i` covers lookup `j`, is still running then, and was not cleared in between. */
  predicate SilenceReaches(log: seq<Event>, i: int, j: int) {
    && 0 <= i < j < |log| && log[i].Silenced? && log[j].LookedUp?
    && log[i].device == log[j].device && (log[i].scope == AllMetrics || log[i].scope == OneMetric(log[j].metric))
    && log[j].at < log[i].until && NoClear(log, log[i].device, i, j)
  }

  /** Lookup `j`, if it succeeded, reported a silence exactly when one reaches it. */
  ghost predicate LookupExact(log: seq<Event>, j: int)
    requires 0 <= j < |log|
  {
    log[j].LookedUp? && log[j].ok ==> (log[j].silenced <==> exists i :: SilenceReaches(log, i, j))
  }

  ghost predicate LookupsInv(log: seq<Event>) {
    forall j :: 0 <= j < |log| ==> LookupExact(log, j)
  }

  /** A successful lookup reports a silence exactly when the table has a running rule for the device that is
      for all metrics or for this one. */
  lemma StepLookups(s: State, a: Action)
    ensures Act(s, a).events != [] && Act(s, a).events[0].LookedUp? && Act(s, a).events[0].ok ==>
      var v := Act(s, a).events[0];
      v.silenced <==> exists r :: r in s.rules && r.device == v.device && s.now < r.until && (r.scope == AllMetrics || r.scope == OneMetric(v.metric))
  {
  }

  lemma ReachesInPrefix(log: seq<Event>, log': seq<Event>, i: int, j: int)
    requires log <= log' && 0 <= j < |log|
    ensures SilenceReaches(log, i, j) <==> SilenceReaches(log', i, j)
  {
    assert forall k :: 0 <= k < |log| ==> log'[k] == log[k];
  }

  /** The lookup that a step has just logged. */
  lemma NewLookupExact(s: State, a: Action)
    requires RulesInv(s) && RulesFounded(s) && Act(s, a).events != []
    ensures LookupExact(Step(s, a).log, |s.log|)
  {
    var log, j := Step(s, a).log, |s.log|;
    StepEvents(s, a);
    StepLookups(s, a);
    assert forall k :: 0 <= k < j ==> log[k] == s.log[k];
    if log[j].LookedUp? && log[j].ok {
      if log[j].silenced {
        var r :| r in s.rules && r.device == log[j].device && s.now < r.until && (r.scope == AllMetrics || r.scope == OneMetric(log[j].metric));
        var i :| Founds(s.log, i, r);
        assert SilenceReaches(log, i, j);
      }
      forall i | SilenceReaches(log, i, j) ensures log[j].silenced {
        assert NoClear(s.log, log[i].device, i, j);
        assert RuleKept(s, i);
        assert Rule(log[i].device, log[i].scope, log[i].until) in s.rules;
      }
    }
  }

  lemma StepKeepsLookups(s: State, a: Action)
    requires LookupsInv(s.log) && RulesInv(s) && RulesFounded(s)
    ensures LookupsInv(Step(s, a).log)
  {
    var log := Step(s, a).log;
    StepEvents(s, a);
    forall j | 0 <= j < |log| ensures LookupExact(log, j) {
      if j < |s.log| {
        assert LookupExact(s.log, j);
        forall i ensures SilenceReaches(s.log, i, j) <==> SilenceReaches(log, i, j) { ReachesInPrefix(s.log, log, i, j); }
      } else {
        NewLookupExact(s, a);
      }
    }
  }

  // ---------- evaluations ----------

  /** Past the suppression check. */
  predicate Alerting(pc: Pc) {
    pc.Record? || pc.Publish? || pc.Mark?
  }

  /** Log entry `c` is the suppression check that evaluation `e` passed. */
  predicate CheckPassed(log: seq<Event>, c: nat, e: nat, device: string) {
    c < |log| && log[c].Checked? && log[c].eval == e && log[c].passed && log[c].device == device
  }

  predicate EvalInv(s: State, e: nat)
    requires e in s.evals
  {
    var v := s.evals[e];
    && (v.pc.Check? || Alerting(v.pc) ==> !v.silenced)
    && (Alerting(v.pc) ==> CheckPassed(s.log, v.pc.check, e, v.device))
  }

  /** What the log says about an evaluation agrees with where it is. */
  predicate EventInv(s: State, v: Event) {
    match v
    case LookedUp(device, _, e, metric, _, silenced) =>
      e in s.evals && !s.evals[e].pc.Lookup? && s.evals[e].device == device && s.evals[e].metric == metric && s.evals[e].silenced == silenced
    case Recorded(device, at, e, check) =>
      && e in s.evals && !s.evals[e].pc.Lookup? && s.evals[e].device == device && !s.evals[e].silenced
      && CheckPassed(s.log, check, e, device) && s.log[check].at <= at
    case Published(device, _, e) =>
      e in s.evals && !s.evals[e].pc.Lookup? && s.evals[e].device == device && !s.evals[e].silenced
    case RecordedSilenced(device, _, e) =>
      e in s.evals && !s.evals[e].pc.Lookup? && s.evals[e].device == device && s.evals[e].silenced
    case _ => true
  }

  ghost predicate EvalsInv(s: State) {
    && (forall e :: e in s.evals ==> EvalInv(s, e))
    && (forall i :: 0 <= i < |s.log| ==> EventInv(s, s.log[i]))
  }

  /** Only its own steps move an evaluation. */
  lemma OthersLeaveEval(s: State, a: Action, e: nat)
    requires e in Act(s, a).state.evals && !(a.Advance? && a.e == e && e in s.evals)
    ensures if e in s.evals then Act(s, a).state.evals[e] == s.evals[e] else Act(s, a).state.evals[e].pc == Lookup
  {
  }

  lemma EvalsStay(s: State, a: Action, e: nat)
    requires e in s.evals
    ensures e in Act(s, a).state.evals
  {
  }

  /** An evaluation's own step keeps its data, leaves the lookup once, and keeps the lookup's verdict. */
  lemma OwnStep(s: State, e: nat, o: Outcome)
    requires e in s.evals
    ensures e in AdvanceEval(s, e, o).state.evals
    ensures var v, v' := s.evals[e], AdvanceEval(s, e, o).state.evals[e];
      && v'.device == v.device && v'.metric == v.metric && !v'.pc.Lookup?
      && (!v.pc.Lookup? ==> v'.silenced == v.silenced)
  {
  }

  /** It gets to alerting only unsilenced, and by a check it has just passed. */
  lemma OwnStepAlerts(s: State, e: nat, o: Outcome)
    requires e in s.evals
    ensures e in AdvanceEval(s, e, o).state.evals
    ensures var pc, v', events := s.evals[e].pc, AdvanceEval(s, e, o).state.evals[e], AdvanceEval(s, e, o).events;
      && (v'.pc.Check? ==> !v'.silenced)
      && (Alerting(v'.pc) ==> if Alerting(pc) then v'.pc.check == pc.check
                              else pc.Check? && v'.pc.check == |s.log| && events == [Checked(s.evals[e].device, s.now, e, o == Works, true)])
  {
  }

  lemma EvalsPersist(s: State, a: Action, e: nat)
    requires e in s.evals
    ensures e in Act(s, a).state.evals
    ensures var v, v' := s.evals[e], Act(s, a).state.evals[e];
      && v'.device == v.device && v'.metric == v.metric
      && (!v.pc.Lookup? ==> !v'.pc.Lookup? && v'.silenced == v.silenced)
  {
    EvalsStay(s, a, e);
    if a.Advance? && a.e == e {
      OwnStep(s, e, a.outcome);
    } else {
      OthersLeaveEval(s, a, e);
    }
  }

  /** The evaluation an event belongs to was past its lookup with that verdict, or has just done it. */
  lemma NewEventInv(s: State, a: Action)
    requires EvalsInv(s) && TimeInv(s) && Act(s, a).events != []
    ensures EventInv(Step(s, a), Act(s, a).events[0])
  {
    if a.Advance? && a.e in s.evals {
      assert EvalInv(s, a.e);
      EvalsPersist(s, a, a.e);
    }
  }

  lemma NewEvalInv(s: State, a: Action, e: nat)
    requires EvalsInv(s) && e in Step(s, a).evals
    ensures EvalInv(Step(s, a), e)
  {
    if a.Advance? && a.e == e && e in s.evals {
      OwnStep(s, e, a.outcome);
      OwnStepAlerts(s, e, a.outcome);
      assert EvalInv(s, e);
    } else {
      OthersLeaveEval(s, a, e);
      if e in s.evals {
        assert EvalInv(s, e);
      }
    }
  }

  lemma StepKeepsEvals(s: State, a: Action)
    requires EvalsInv(s) && TimeInv(s)
    ensures EvalsInv(Step(s, a))
  {
    var s' := Step(s, a);
    StepEvents(s, a);
    forall e | e in s'.evals ensures EvalInv(s', e) { NewEvalInv(s, a, e); }
    forall i | 0 <= i < |s'.log| ensures EventInv(s', s'.log[i]) {
      if i < |s.log| {
        var v := s.log[i];
        assert EventInv(s, v);
        if v.LookedUp? || v.Recorded? || v.Published? || v.RecordedSilenced? { EvalsPersist(s, a, v.eval); }
      } else {
        NewEventInv(s, a);
      }
    }
  }

  // ---------- all reachable states ----------

  ghost predicate Inv(s: State) {
    && TimeInv(s) && TtlInv(s) && KeyInv(s) && ChecksInv(s.log) && FoundedInv(s) && SuppressedInv(s.log)
    && RulesInv(s) && RulesFounded(s) && LookupsInv(s.log) && EvalsInv(s)
  }

  lemma StepKeepsInv(s: State, a: Action)
    requires Inv(s)
    ensures Inv(Step(s, a))
  {
    StepKeepsTime(s, a);
    StepRedis(s, a);
    StepKeepsKeys(s, a);
    StepKeepsChecks(s, a);
    StepKeepsFounded(s, a);
    StepKeepsSuppressed(s, a);
    StepKeepsRules(s, a);
    StepKeepsRulesFounded(s, a);
    StepKeepsLookups(s, a);
    StepKeepsEvals(s, a);
  }

  lemma {:induction false} Reachable(now: Micros, schedule: seq<Action>)
    ensures Inv(Run(Init(now), schedule))
  {
    if schedule != [] {
      Reachable(now, schedule[..|schedule| - 1]);
      StepKeepsInv(Run(Init(now), schedule[..|schedule| - 1]), schedule[|schedule| - 1]);
    }
  }

  /** Alert `r'` was recorded on a check, passed by a working Redis, that came after a write `k` of the
      device's key, which in turn came after alert `r`. In serial runs this is so for any two alerts. */
  predicate SetBetween(log: seq<Event>, r: int, k: int, r': int) {
    && 0 <= r < k < r' < |log| && log[r].Recorded? && log[k].KeySet? && log[r'].Recorded?
    && log[r].device == log[k].device == log[r'].device
    && k < log[r'].check < |log| && Passes(log[log[r'].check])
  }

  /** Suppression, over all interleavings: a check that a working Redis let pass comes at least 300 s after
      every earlier write of the device's key, by an evaluation or by SilenceAlert; so an alert recorded
      on that check is at least 300 s younger than any alert recorded before that write. */
  lemma AlertsSpaced(now: Micros, schedule: seq<Action>)
    ensures var log := Run(Init(now), schedule).log;
      && (forall i, j :: 0 <= i < j < |log| && log[i].KeySet? && Passes(log[j]) && log[i].device == log[j].device ==>
            log[j].at - log[i].at >= 300_000_000)
      && (forall r, k, r' :: SetBetween(log, r, k, r') ==> log[r'].at - log[r].at >= 300_000_000)
  {
    Reachable(now, schedule);
    var s := Run(Init(now), schedule);
    forall r' | 0 <= r' < |s.log| && s.log[r'].Recorded?
      ensures s.log[r'].check < |s.log| && s.log[s.log[r'].check].device == s.log[r'].device && s.log[s.log[r'].check].at <= s.log[r'].at
    {
      assert EventInv(s, s.log[r']);
    }
  }

  /** Suppression is exact, over all interleavings: a check that reaches Redis is suppressed if and only if
      the device's key was written, by an evaluation or by SilenceAlert, less than 300 s before it.
      Neither ClearSilence nor anything else but time lifts it. */
  lemma SuppressedIff(now: Micros, schedule: seq<Action>, j: nat)
    requires j < |Run(Init(now), schedule).log|
    requires var v := Run(Init(now), schedule).log[j]; v.Checked? && v.redisOk
    ensures var log := Run(Init(now), schedule).log;
      !log[j].passed <==> exists i :: 0 <= i < j && log[i].KeySet? && log[i].device == log[j].device && log[j].at - log[i].at < 300_000_000
  {
    Reachable(now, schedule);
    var log := Run(Init(now), schedule).log;
    if !log[j].passed {
      var i :| i < j && SetRecently(log, i, log[j].device, log[j].at);
      assert 0 <= i < j && log[i].KeySet?;
    } else {
      assert Passes(log[j]);
    }
  }

  /** Silencing is exact, over all interleavings: a lookup that succeeds finds the evaluation silenced if and only
      if some silence of its device, for all metrics or its own, was made before, still runs, and was not
      cleared since, whatever other silences come and go. A silenced evaluation never publishes and
      never records an unsilenced alert; one that is not never records a silenced alert. */
  lemma SilencedIff(now: Micros, schedule: seq<Action>, j: nat)
    requires j < |Run(Init(now), schedule).log|
    requires var v := Run(Init(now), schedule).log[j]; v.LookedUp? && v.ok
    ensures var log := Run(Init(now), schedule).log;
      && (log[j].silenced <==> exists i :: SilenceReaches(log, i, j))
      && (forall k :: 0 <= k < |log| && (log[k].Published? || log[k].Recorded?) && log[k].eval == log[j].eval ==> !log[j].silenced)
      && (forall k :: 0 <= k < |log| && log[k].RecordedSilenced? && log[k].eval == log[j].eval ==> log[j].silenced)
  {
    Reachable(now, schedule);
    var s := Run(Init(now), schedule);
    assert LookupExact(s.log, j);
    assert EventInv(s, s.log[j]);
    forall k | 0 <= k < |s.log| && (s.log[k].Published? || s.log[k].Recorded? || s.log[k].RecordedSilenced?) && s.log[k].eval == s.log[j].eval
      ensures s.log[j].silenced <==> s.log[k].RecordedSilenced?
    {
      assert EventInv(s, s.log[k]);
    }
  }

  /** In particular, an evaluation whose lookup succeeds while a covering silence runs publishes nothing. */
  lemma SilenceHolds(now: Micros, schedule: seq<Action>, i: nat, j: nat, k: nat)
    requires var log := Run(Init(now), schedule).log; SilenceReaches(log, i, j) && log[j].ok && k < |log|
    ensures var log := Run(Init(now), schedule).log;
      log[k].Published? || log[k].Recorded? ==> log[k].eval != log[j].eval
  {
    SilencedIff(now, schedule, j);
  }

  /** Advance(e), Advance(e'), twice over. */
  function Interleaved(s: State, e: nat, e': nat): State {
    Step(Step(s, Advance(e, Works)), Advance(e', Works))
  }

  lemma BothCheck(s: State, e: nat, e': nat)
    requires e in s.evals && e' in s.evals && e != e' && s.evals[e].device == s.evals[e'].device
    requires s.evals[e].pc.Check? && s.evals[e'].pc.Check?
    ensures var s2, live := Interleaved(s, e, e'), KeyLive(s, s.evals[e].device);
      && |s2.log| == |s.log| + 2 && s2.now == s.now && e in s2.evals && e' in s2.evals
      && s2.evals[e] == s.evals[e].(pc := if live then Scan(s.evals[e].pc.i + 1) else Record(s.evals[e].pc.i, |s.log|))
      && s2.evals[e'] == s.evals[e'].(pc := if live then Scan(s.evals[e'].pc.i + 1) else Record(s.evals[e'].pc.i, |s.log| + 1))
  {
    var s1 := Step(s, Advance(e, Works));
    assert s1.evals == s.evals[e := NextEval(s, s.evals[e], Works)] && |s1.log| == |s.log| + 1;
  }

  lemma BothRecord(s: State, e: nat, e': nat, check: nat, check': nat)
    requires e in s.evals && e' in s.evals && e != e' && s.evals[e].device == s.evals[e'].device
    requires s.evals[e].pc.Record? && s.evals[e].pc.check == check && s.evals[e'].pc.Record? && s.evals[e'].pc.check == check'
    ensures Interleaved(s, e, e').log == s.log + [Recorded(s.evals[e].device, s.now, e, check), Recorded(s.evals[e].device, s.now, e', check')]
  {
    var s1 := Step(s, Advance(e, Works));
    assert s1.evals[e'] == s.evals[e'] && s1.log == s.log + [Recorded(s.evals[e].device, s.now, e, check)];
  }

  lemma BothScan(s: State, e: nat, e': nat)
    requires e in s.evals && e' in s.evals && e != e' && s.evals[e].pc.Scan? && s.evals[e'].pc.Scan?
    ensures Interleaved(s, e, e').log == s.log
  {
    var s1 := Step(s, Advance(e, Works));
    assert s1.evals[e'] == s.evals[e'] && s1.log == s.log;
  }

  /** The race: two evaluations of a device that, in a reachable state, both check before either goes on to
      write the key record two alerts, at the same instant, if and only if the key was not written less
      than 300 s before. */
  lemma RaceRecordsTwice(now: Micros, schedule: seq<Action>, e: nat, e': nat)
    requires var s := Run(Init(now), schedule);
      && e in s.evals && e' in s.evals && e != e' && s.evals[e].device == s.evals[e'].device
      && s.evals[e].pc.Check? && s.evals[e'].pc.Check?
    ensures var s := Run(Init(now), schedule);
      var d, s2 := s.evals[e].device, Interleaved(s, e, e');
      Interleaved(s2, e, e').log == s2.log + [Recorded(d, s.now, e, |s.log|), Recorded(d, s.now, e', |s.log| + 1)]
      <==> !exists i :: SetRecently(s.log, i, d, s.now)
  {
    Reachable(now, schedule);
    var s := Run(Init(now), schedule);
    var s2 := Interleaved(s, e, e');
    KeyLiveIff(s, s.evals[e].device);
    BothCheck(s, e, e');
    if KeyLive(s, s.evals[e].device) {
      BothScan(s2, e, e');
    } else {
      BothRecord(s2, e, e', |s.log|, |s.log| + 1);
    }
  }

  lemma OpenSilence(s: State, c: nat, device: string, metric: string, seconds: int)
    requires c !in s.silencers
    ensures Step(s, SilenceAlert(c, device, metric, seconds)) == s.(silencers := s.silencers[c := Opening(device, metric, seconds)])
  {
    assert s.log + [] == s.log;
  }

  lemma TimeSilence(s: State, c: nat)
    requires c in s.silencers && s.silencers[c].Reading?
    ensures var q := s.silencers[c];
      Step(s, AdvanceSilence(c, Works)) == s.(silencers := s.silencers[c := Inserting(q.device, q.scope, s.now + q.seconds * SECOND)])
  {
    assert s.log + [] == s.log;
  }

  /** Undisturbed, a SilenceAlert call takes effect exactly when its arguments are valid, the device exists,
      and it is for all metrics or for a metric that has no rule yet; the rule then lasts for the requested
      time. A rule that has run out blocks a new one until it is cleared. */
  lemma SilenceSucceedsIff(s: State, c: nat, device: string, metric: string, seconds: int)
    requires c !in s.silencers
    ensures var next := AdvanceSilence(c, Works);
      var s' := Step(Step(Step(s, SilenceAlert(c, device, metric, seconds)), next), next);
      var rule := Rule(device, if metric == "" then AllMetrics else OneMetric(metric), s.now + seconds * 1_000_000);
      var free := metric == "" || forall r :: r in s.rules ==> r.device != device || r.scope != OneMetric(metric);
      && c in s'.silencers
      && (s'.silencers[c] == Caching(device) <==> device != "" && seconds > 0 && device in s.devices && free)
      && (if s'.silencers[c].Caching? then
            s'.rules == s.rules + {rule} && s'.log == s.log + [Silenced(device, s.now, rule.scope, rule.until)]
          else s'.silencers[c] == Replied(false) && s'.rules == s.rules && s'.log == s.log)
  {
    OpenSilence(s, c, device, metric, seconds);
    var s1 := Step(s, SilenceAlert(c, device, metric, seconds));
    assert s1.log + [] == s1.log;
    if s1.silencers[c].Reading? {
      TimeSilence(s1, c);
      var s2 := Step(s1, AdvanceSilence(c, Works));
      assert s2.log + [] == s2.log;
    }
  }

  /** The last step of a SilenceAlert call: it sets the device's key for 300 s if Redis takes it, and replies
      success in any case. */
  lemma SilenceSetsKey(s: State, c: nat, o: Outcome)
    requires c in s.silencers && s.silencers[c].Caching?
    ensures var s', d := Step(s, AdvanceSilence(c, o)), s.silencers[c].device;
      && s'.silencers[c] == Replied(true) && s'.rules == s.rules
      && s'.redis == (if o == FailsClean then s.redis else s.redis[d := s.now + 300_000_000])
      && s'.log == s.log + if o == FailsClean then [] else [KeySet(d, s.now)]
  {
  }

  lemma ClearLeavesKey(s: State, device: string)
    requires device != ""
    ensures var s1 := Step(s, ClearSilence(device, Works));
      && s1.redis == s.redis && s1.now == s.now && s1.evals == s.evals
      && s1.rules == set r | r in s.rules && r.device != device
  {
  }

  lemma CheckLogs(s: State, e: nat)
    requires e in s.evals && s.evals[e].pc.Check?
    ensures Step(s, Advance(e, Works)).log == s.log + [Checked(s.evals[e].device, s.now, e, true, !KeyLive(s, s.evals[e].device))]
  {
  }

  /** ClearSilence lifts the rules and not the Redis key: in a reachable state, the device's next check, right
      after it, is still suppressed if and only if the key was written less than 300 s before. */
  lemma ClearedDeviceStaysSuppressed(now: Micros, schedule: seq<Action>, e: nat)
    requires var s := Run(Init(now), schedule); e in s.evals && s.evals[e].pc.Check? && s.evals[e].device != ""
    ensures var s := Run(Init(now), schedule);
      var d := s.evals[e].device;
      var s1 := Step(s, ClearSilence(d, Works));
      var s2 := Step(s1, Advance(e, Works));
      && (forall r :: r in s1.rules ==> r.device != d)
      && s2.log == s1.log + [Checked(d, s.now, e, true, !exists i :: SetRecently(s.log, i, d, s.now))]
  {
    Reachable(now, schedule);
    var s := Run(Init(now), schedule);
    var s1 := Step(s, ClearSilence(s.evals[e].device, Works));
    KeyLiveIff(s, s.evals[e].device);
    ClearLeavesKey(s, s.evals[e].device);
    CheckLogs(s1, e);
  }
}
