/** GetAggregations with its query cache as a step system: any number of calls, the Redis query cache
    under formatted keys with a TTL, invalidations after writes, expiry and errors, all interleaved. */
module Aggregations {
  import opened Common
  import opened Text
  import opened Keys

  const AGG_TTL: Micros := 300 * SECOND

  /** Enumerations are open: any number may come in for `window` and in `aggs`. */
  datatype Request = Request(device: string, metric: string, window: int, start: Bound, end: Bound, aggs: seq<int>)

  datatype Window = Window(start: Micros, end: Micros, avg: real, max: real, min: real, p95: real, p99: real, count: int)

  type Rows = seq<Window>

  /** An absent timestamp reads as the epoch. */
  function TimeOf(b: Bound): Micros {
    if b.Absent? then 0 else b.t
  }

  predicate ValidRequest(req: Request) {
    && req.device != "" && req.metric != "" && req.window != 0
    && (IsZero(req.start) || IsZero(req.end) || TimeOf(req.start) <= TimeOf(req.end))
  }

  function WindowName(window: int): string {
    if window == 1 then "1m" else if window == 2 then "5m" else if window == 4 then "1d" else "1h"
  }

  const TYPE_PREFIX: string := "AGGREGATION_TYPE_"

  const TYPES: seq<string> := ["UNSPECIFIED", "AVG", "MAX", "MIN", "COUNT", "P95", "P99", "SUM", "STDDEV"]

  /** The String method of the enumeration: numbers without a name print as numbers. */
  function TypeName(n: int): string {
    if 0 <= n < |TYPES| then TYPE_PREFIX + TYPES[n] else Decimal(n)
  }

  function QueryOf(req: Request): AggQuery {
    AggQuery(req.device, req.metric, WindowName(req.window), TimeOf(req.start) / SECOND, TimeOf(req.end) / SECOND,
      seq(|req.aggs|, i requires 0 <= i < |req.aggs| => TypeName(req.aggs[i])))
  }

  function CacheKey(req: Request): string {
    AggKey(QueryOf(req))
  }

  // ---------- what a key stands for ----------

  lemma TypeNameInjective(m: int, n: int)
    requires TypeName(m) == TypeName(n)
    ensures m == n
  {
    DecimalSign(m);
    DecimalSign(n);
    assert 'A' !in DIGITS && TYPE_PREFIX[0] == 'A';
    if 0 <= m < |TYPES| && 0 <= n < |TYPES| {
      assert TypeName(m)[|TYPE_PREFIX|..] == TYPES[m] && TypeName(n)[|TYPE_PREFIX|..] == TYPES[n];
      assert |TYPES| == 9;
    } else if !(0 <= m < |TYPES|) && !(0 <= n < |TYPES|) {
      DecimalInjective(m, n);
    } else {
      NumbersAreNotNames(m);
      NumbersAreNotNames(n);
    }
  }

  lemma NumbersAreNotNames(n: int)
    ensures Decimal(n) != [] && Decimal(n)[0] != 'A' && ':' !in Decimal(n) && ' ' !in Decimal(n)
  {
    assert 'A' !in DIGITS && ':' !in DIGITS && ' ' !in DIGITS;
  }

  lemma TypeNameIsWord(n: int)
    ensures TypeName(n) != "" && ' ' !in TypeName(n) && ':' !in TypeName(n)
  {
    if 0 <= n < |TYPES| {
      assert ' ' !in TYPE_PREFIX && ':' !in TYPE_PREFIX;
      assert ' ' !in TYPES[n] && ':' !in TYPES[n];
    } else {
      NumbersAreNotNames(n);
    }
  }

  lemma QueryIsEnumerated(req: Request)
    ensures Enumerated(QueryOf(req))
  {
    forall i | 0 <= i < |req.aggs| ensures TypeName(req.aggs[i]) != "" && ' ' !in TypeName(req.aggs[i]) && ':' !in TypeName(req.aggs[i]) {
      TypeNameIsWord(req.aggs[i]);
    }
  }

  /** The two windows are served alike: the same number, or neither of them one minute, five minutes or a day. */
  predicate SameWindow(a: int, b: int) {
    a == b || (a != 1 && a != 2 && a != 4 && b != 1 && b != 2 && b != 4)
  }

  /** The two bounds fall in the same second; an absent one is at the epoch. */
  predicate SameSecond(a: Bound, b: Bound) {
    (if a.Absent? then 0 else a.t) / 1_000_000 == (if b.Absent? then 0 else b.t) / 1_000_000
  }

  /** The parts of a request that the query cache looks at, apart from its names. */
  predicate SameShape(a: Request, b: Request) {
    SameWindow(a.window, b.window) && a.aggs == b.aggs && SameSecond(a.start, b.start) && SameSecond(a.end, b.end)
  }

  lemma WindowNameIff(a: int, b: int)
    ensures WindowName(a) == WindowName(b) <==> SameWindow(a, b)
  {
    assert "1m"[0] == '1' && "5m"[0] == '5' && "1d"[1] == 'd' && "1h"[1] == 'h' && "1m"[1] == 'm';
  }

  lemma SameCacheKey(a: Request, b: Request)
    ensures CacheKey(a) == CacheKey(b) <==> LastValueKey(a.device, a.metric) == LastValueKey(b.device, b.metric) && SameShape(a, b)
  {
    QueryIsEnumerated(a);
    QueryIsEnumerated(b);
    SameAggKey(QueryOf(a), QueryOf(b));
    WindowNameIff(a.window, b.window);
    if QueryOf(a).aggs == QueryOf(b).aggs {
      forall i | 0 <= i < |a.aggs| ensures a.aggs[i] == b.aggs[i] {
        assert QueryOf(a).aggs[i] == QueryOf(b).aggs[i];
        TypeNameInjective(a.aggs[i], b.aggs[i]);
      }
    }
  }

  // ---------- the cache's TTL table ----------

  /** The TTL of a key, by the kind before its first colon. */
  function Ttl(key: string): Micros {
    if "stats:" <= key then 600 * SECOND
    else if "point:" <= key then 60 * SECOND
    else 300 * SECOND
  }

  /** getTTL: a search for the first colon, then the table of TTLs with its default. */
  method GetTtl(key: string) returns (ttl: Micros)
    ensures ttl == Ttl(key)
    ensures "stats:" <= key ==> ttl == 600_000_000
    ensures "point:" <= key ==> ttl == 60_000_000
    ensures "agg:" <= key || ':' !in key ==> ttl == 300_000_000
  {
    var prefix := "";
    var i := 0;
    while i < |key|
      invariant 0 <= i <= |key| && prefix == "" && ':' !in key[..i]
    {
      if key[i] == ':' {
        prefix := key[..i];
        break;
      }
      i := i + 1;
    }
    assert "agg:"[0] == 'a' && "stats:"[0] == 's' && "point:"[0] == 'p';
    assert "stats:" <= key ==> key[5] == ':';
    assert "point:" <= key ==> key[5] == ':';
    assert "stats:"[..5] == "stats" && "stats:"[5] == ':' && "point:"[..5] == "point" && "point:"[5] == ':';
    ttl := 300 * SECOND;
    if prefix == "stats" {
      ttl := 600 * SECOND;
    } else if prefix == "point" {
      ttl := 60 * SECOND;
    }
  }

  /** No aggregation key has the prefix of a point or statistics key, the only ones InvalidateMetricCache deletes. */
  lemma AggKeyKind(q: AggQuery)
    ensures "agg:" <= AggKey(q) && Ttl(AggKey(q)) == 300_000_000 && !("point:" <= AggKey(q)) && !("stats:" <= AggKey(q))
  {
    assert "agg"[0] == 'a' && "point:"[0] == 'p' && "stats:"[0] == 's';
  }

  // ---------- the step system ----------

  datatype Entry = Entry(rows: Rows, expiry: Micros)

  datatype Reply = Invalid | QueryFailed | FromCache(rows: Rows) | FromQuery(rows: Rows)

  /** Where a call is; `source` is the log position of its query's answer. */
  datatype Pc = Reading | Querying | Storing(rows: Rows, source: nat) | Replied(reply: Reply)

  datatype Call = Call(request: Request, key: string, pc: Pc)

  datatype Event =
    | Hit(call: nat, request: Request, key: string, at: Micros, rows: Rows)
    | Missed(call: nat, request: Request, key: string, at: Micros, redisOk: bool)
    | Computed(call: nat, request: Request, key: string, at: Micros, rows: Rows)
    | Stored(call: nat, request: Request, key: string, at: Micros, rows: Rows, source: nat)

  datatype State = State(now: Micros, cache: map<string, Entry>, calls: map<nat, Call>, log: seq<Event>)

  datatype Action =
    | Tick(elapsed: nat)
    | Expire(key: string)
    | GetAggregations(c: nat, request: Request)
    | Read(c: nat, redis: Outcome)
    | Query(c: nat, ok: bool, rows: Rows)
    | Store(c: nat, redis: Outcome)
    | Invalidate(keys: set<string>)

  function Init(now: Micros): State {
    State(now, map[], map[], [])
  }

  predicate EntryLive(cache: map<string, Entry>, key: string, now: Micros) {
    key in cache && now < cache[key].expiry
  }

  function Goto(s: State, c: nat, pc: Pc): State
    requires c in s.calls
  {
    s.(calls := s.calls[c := s.calls[c].(pc := pc)])
  }

  function Log(s: State, v: Event): State {
    s.(log := s.log + [v])
  }

  /** InvalidateMetricCache, after a write to a metric: point and statistics keys, and those only. */
  predicate Invalidates(keys: set<string>) {
    forall k :: k in keys ==> "point:" <= k || "stats:" <= k
  }

  function ReadStep(s: State, c: nat, redis: Outcome): State
    requires c in s.calls
  {
    var call := s.calls[c];
    if redis == Works && EntryLive(s.cache, call.key, s.now) then
      var rows := s.cache[call.key].rows;
      Log(Goto(s, c, Replied(FromCache(rows))), Hit(c, call.request, call.key, s.now, rows))
    else Log(Goto(s, c, Querying), Missed(c, call.request, call.key, s.now, redis == Works))
  }

  function QueryStep(s: State, c: nat, ok: bool, rows: Rows): State
    requires c in s.calls
  {
    var call := s.calls[c];
    if ok then Log(Goto(s, c, Storing(rows, |s.log|)), Computed(c, call.request, call.key, s.now, rows))
    else Goto(s, c, Replied(QueryFailed))
  }

  function StoreStep(s: State, c: nat, redis: Outcome): State
    requires c in s.calls && s.calls[c].pc.Storing?
  {
    var call, pc := s.calls[c], s.calls[c].pc;
    var s' := Goto(s, c, Replied(FromQuery(pc.rows)));
    if redis == FailsClean then s'
    else
      Log(s', Stored(c, call.request, call.key, s.now, pc.rows, pc.source))
        .(cache := s.cache[call.key := Entry(pc.rows, s.now + Ttl(call.key))])
  }

  function Step(s: State, a: Action): State {
    match a
    case Tick(elapsed) => s.(now := s.now + elapsed)
    case Expire(key) => if key in s.cache && s.cache[key].expiry <= s.now then s.(cache := s.cache - {key}) else s
    case GetAggregations(c, req) =>
      if c in s.calls then s
      else s.(calls := s.calls[c := Call(req, CacheKey(req), if ValidRequest(req) then Reading else Replied(Invalid))])
    case Read(c, redis) => if c in s.calls && s.calls[c].pc.Reading? then ReadStep(s, c, redis) else s
    case Query(c, ok, rows) => if c in s.calls && s.calls[c].pc.Querying? then QueryStep(s, c, ok, rows) else s
    case Store(c, redis) => if c in s.calls && s.calls[c].pc.Storing? then StoreStep(s, c, redis) else s
    case Invalidate(keys) => if Invalidates(keys) then s.(cache := s.cache - keys) else s
  }

  function Run(s: State, schedule: seq<Action>): State {
    if schedule == [] then s else Step(Run(s, schedule[..|schedule| - 1]), schedule[|schedule| - 1])
  }

  // ---------- the invariant ----------

  /** A valid request under its own key. */
  predicate Named(req: Request, key: string) {
    req.device != "" && req.metric != "" && key == CacheKey(req)
  }

  predicate CallNamed(call: Call) {
    call.pc.Replied? || Named(call.request, call.key)
  }

  ghost predicate NamesInv(s: State) {
    && (forall c :: c in s.calls ==> CallNamed(s.calls[c]))
    && (forall i :: 0 <= i < |s.log| ==> Named(s.log[i].request, s.log[i].key))
  }

  /** The position of the latest store under `key`, or -1. */
  function LastStore(log: seq<Event>, key: string): (i: int)
    ensures -1 <= i < |log|
    ensures i >= 0 ==> log[i].Stored? && log[i].key == key
    ensures forall j :: i < j < |log| && log[j].Stored? ==> log[j].key != key
  {
    if log == [] then -1
    else if log[|log| - 1].Stored? && log[|log| - 1].key == key then |log| - 1
    else
      var i := LastStore(log[..|log| - 1], key);
      assert forall j :: i < j < |log| - 1 ==> log[j] == log[..|log| - 1][j];
      i
  }

  lemma LastStoreAppends(log: seq<Event>, v: Event, key: string)
    ensures LastStore(log + [v], key) == if v.Stored? && v.key == key then |log| else LastStore(log, key)
  {
    assert (log + [v])[..|log|] == log;
  }

  /** The cache holds, under every key, the latest store under it and nothing else. */
  predicate KeyInv(s: State, key: string) {
    var i := LastStore(s.log, key);
    && (key in s.cache ==> i >= 0 && s.cache[key] == Entry(s.log[i].rows, s.log[i].at + Ttl(key)))
    && (i >= 0 && s.now < s.log[i].at + Ttl(key) ==> key in s.cache)
  }

  /** A store puts in what its own call computed before. */
  predicate SourceInv(log: seq<Event>, i: nat)
    requires i < |log|
  {
    log[i].Stored? ==>
      var h := log[i].source;
      h < i && log[h] == Computed(log[i].call, log[i].request, log[i].key, log[h].at, log[i].rows)
  }

  /** A read that reached Redis was answered by the latest store if that was less than a TTL ago, and missed otherwise. */
  predicate ReadInv(log: seq<Event>, j: nat)
    requires j < |log|
  {
    var i := LastStore(log[..j], log[j].key);
    && (log[j].Hit? ==> i >= 0 && log[j].at < log[i].at + Ttl(log[j].key) && log[j].rows == log[i].rows)
    && (log[j].Missed? && log[j].redisOk ==> i < 0 || log[i].at + Ttl(log[j].key) <= log[j].at)
  }

  predicate CallInv(s: State, c: nat)
    requires c in s.calls
  {
    var call := s.calls[c];
    match call.pc
    case Storing(rows, source) => source < |s.log| && s.log[source] == Computed(c, call.request, call.key, s.log[source].at, rows)
    case Replied(FromQuery(rows)) => exists i :: 0 <= i < |s.log| && s.log[i] == Computed(c, call.request, call.key, s.log[i].at, rows)
    case Replied(FromCache(rows)) => exists i :: 0 <= i < |s.log| && s.log[i] == Hit(c, call.request, call.key, s.log[i].at, rows)
    case _ => true
  }

  ghost predicate KeysInv(s: State) {
    forall key :: KeyInv(s, key)
  }

  ghost predicate LogInv(s: State) {
    && (forall j :: 0 <= j < |s.log| ==> SourceInv(s.log, j))
    && (forall j :: 0 <= j < |s.log| ==> ReadInv(s.log, j))
  }

  ghost predicate TimeInv(s: State) {
    && (forall j :: 0 <= j < |s.log| ==> s.log[j].at <= s.now)
    && (forall i, j :: 0 <= i < j < |s.log| ==> s.log[i].at <= s.log[j].at)
  }

  ghost predicate CallsInv(s: State) {
    forall c :: c in s.calls ==> CallInv(s, c)
  }

  ghost predicate Inv(s: State) {
    NamesInv(s) && KeysInv(s) && CallsInv(s) && LogInv(s) && TimeInv(s)
  }

  /** What a step adds to the log: nothing, or one event of the present, under the key of its call. */
  lemma StepLog(s: State, a: Action)
    ensures var s' := Step(s, a);
      && s.now <= s'.now && |s.log| <= |s'.log| <= |s.log| + 1 && s'.log[..|s.log|] == s.log
      && (|s'.log| == |s.log| ==> s'.log == s.log)
      && (|s'.log| > |s.log| ==>
            var v := s'.log[|s.log|];
            && s'.log == s.log + [v] && v.at == s.now == s'.now
            && v.call in s.calls && !s.calls[v.call].pc.Replied? && v.request == s.calls[v.call].request && v.key == s.calls[v.call].key)
  {
  }

  /** How the entry under a key can change. */
  lemma StepCache(s: State, a: Action, key: string)
    ensures var s' := Step(s, a);
      if |s'.log| > |s.log| && s'.log[|s.log|].Stored? && s'.log[|s.log|].key == key then
        key in s'.cache && s'.cache[key] == Entry(s'.log[|s.log|].rows, s.now + Ttl(key))
      else
        && (key in s'.cache ==> key in s.cache && s'.cache[key] == s.cache[key])
        && (key in s.cache && key !in s'.cache ==> s.cache[key].expiry <= s'.now || "point:" <= key || "stats:" <= key)
  {
  }

  lemma NamedKind(req: Request, key: string)
    requires Named(req, key)
    ensures Ttl(key) == AGG_TTL && !("point:" <= key) && !("stats:" <= key)
  {
    AggKeyKind(QueryOf(req));
  }

  lemma StepKeepsKey(s: State, a: Action, key: string)
    requires KeyInv(s, key) && NamesInv(s)
    ensures KeyInv(Step(s, a), key)
  {
    var s', i := Step(s, a), LastStore(s.log, key);
    StepLog(s, a);
    StepCache(s, a, key);
    if |s'.log| > |s.log| {
      LastStoreAppends(s.log, s'.log[|s.log|], key);
    }
    if i >= 0 {
      NamedKind(s.log[i].request, key);
    }
  }

  /** Where a call is after a step. */
  lemma CallComesFrom(s: State, a: Action, c: nat)
    requires c in Step(s, a).calls
    ensures var s', call' := Step(s, a), Step(s, a).calls[c];
      || (c in s.calls && call' == s.calls[c])
      || (match call'.pc
          case Storing(rows, source) => source == |s.log| && |s'.log| == |s.log| + 1 && s'.log[source] == Computed(c, call'.request, call'.key, s.now, rows)
          case Replied(FromQuery(rows)) => c in s.calls && s.calls[c] == call'.(pc := s.calls[c].pc) && s.calls[c].pc.Storing? && s.calls[c].pc.rows == rows
          case Replied(FromCache(rows)) => |s'.log| == |s.log| + 1 && s'.log[|s.log|] == Hit(c, call'.request, call'.key, s.now, rows)
          case _ => true)
  {
  }

  lemma StepKeepsCall(s: State, a: Action, c: nat)
    requires c in Step(s, a).calls && (c in s.calls ==> CallInv(s, c))
    ensures CallInv(Step(s, a), c)
  {
    var s' := Step(s, a);
    StepLog(s, a);
    CallComesFrom(s, a, c);
    assert forall i :: 0 <= i < |s.log| ==> s'.log[i] == s.log[i];
  }

  lemma StepCallNames(s: State, a: Action, c: nat)
    requires c in Step(s, a).calls && (c in s.calls ==> CallNamed(s.calls[c]))
    ensures CallNamed(Step(s, a).calls[c])
  {
  }

  lemma StepKeepsNames(s: State, a: Action)
    requires NamesInv(s)
    ensures NamesInv(Step(s, a))
  {
    var s' := Step(s, a);
    StepLog(s, a);
    forall c | c in s'.calls ensures CallNamed(s'.calls[c]) { StepCallNames(s, a, c); }
    forall i | 0 <= i < |s'.log| ensures Named(s'.log[i].request, s'.log[i].key) {
      if i == |s.log| {
        assert CallNamed(s.calls[s'.log[i].call]);
      }
    }
  }

  lemma NewEventInv(s: State, a: Action)
    requires KeysInv(s) && CallsInv(s) && |Step(s, a).log| > |s.log|
    ensures SourceInv(Step(s, a).log, |s.log|) && ReadInv(Step(s, a).log, |s.log|)
  {
    var v := Step(s, a).log[|s.log|];
    StepLog(s, a);
    assert KeyInv(s, v.key) && CallInv(s, v.call);
  }

  lemma StepKeepsLog(s: State, a: Action)
    requires Inv(s)
    ensures LogInv(Step(s, a))
  {
    var s' := Step(s, a);
    StepLog(s, a);
    forall j | 0 <= j < |s'.log| ensures SourceInv(s'.log, j) && ReadInv(s'.log, j) {
      if j < |s.log| {
        assert s'.log[..j] == s.log[..j] && s'.log[j] == s.log[j] && SourceInv(s.log, j) && ReadInv(s.log, j);
      } else {
        NewEventInv(s, a);
      }
    }
  }

  lemma StepKeepsInv(s: State, a: Action)
    requires Inv(s)
    ensures Inv(Step(s, a))
  {
    var s' := Step(s, a);
    StepKeepsNames(s, a);
    StepKeepsLog(s, a);
    forall key ensures KeyInv(s', key) { StepKeepsKey(s, a, key); }
    forall c | c in s'.calls ensures CallInv(s', c) { StepKeepsCall(s, a, c); }
    StepLog(s, a);
  }

  lemma {:induction false} Reachable(now: Micros, schedule: seq<Action>)
    ensures Inv(Run(Init(now), schedule))
  {
    if schedule != [] {
      Reachable(now, schedule[..|schedule| - 1]);
      StepKeepsInv(Run(Init(now), schedule[..|schedule| - 1]), schedule[|schedule| - 1]);
    }
  }

  // ---------- theorems ----------

  /** Log entry `i` stores, before `j` and less than 300 s before it, what its call had computed at `h`, and
      its request is for the joined name, window, bounds to the second and aggregation list of `j`'s. */
  predicate Answers(log: seq<Event>, h: int, i: int, j: int) {
    && 0 <= h < i < j < |log| && log[i].Stored?
    && log[h].Computed? && log[h].call == log[i].call && log[h].request == log[i].request && log[h].rows == log[i].rows
    && SameQuery(log[i].request, log[j].request)
    && log[j].at - log[i].at < 300_000_000
  }

  /** Same joined name, window, bounds to the second, and aggregation list. */
  predicate SameQuery(a: Request, b: Request) {
    LastValueKey(a.device, a.metric) == LastValueKey(b.device, b.metric) && SameShape(a, b)
  }

  /** No store in log[i + 1..j] is for the query of `req`. */
  ghost predicate NoStoreBetween(log: seq<Event>, i: int, j: int, req: Request) {
    forall k :: 0 <= i < k < j <= |log| && log[k].Stored? ==> !SameQuery(log[k].request, req)
  }

  lemma SameKeyIff(a: Request, ka: string, b: Request, kb: string)
    requires Named(a, ka) && Named(b, kb)
    ensures ka == kb <==> SameQuery(a, b)
  {
    SameCacheKey(a, b);
  }

  /** Joined names agree only with their own series exactly when no colon stands inside the device after
      its first character or in the metric before its last. */
  lemma SameQueryIsOwn(a: Request, b: Request)
    requires a.device != "" && a.metric != "" && b.device != "" && b.metric != ""
    requires ':' !in b.device[1..] && ':' !in b.metric[..|b.metric| - 1]
    ensures SameQuery(a, b) <==> a.device == b.device && a.metric == b.metric && SameShape(a, b)
  {
    UnambiguousIff(b.device, b.metric);
  }

  lemma HitIsAnswered(s: State, j: nat)
    requires Inv(s) && j < |s.log| && s.log[j].Hit?
    ensures exists h, i :: Answers(s.log, h, i, j) && s.log[j].rows == s.log[i].rows && NoStoreBetween(s.log, i, j, s.log[j].request)
  {
    var log := s.log;
    var i := LastStore(log[..j], log[j].key);
    assert ReadInv(log, j) && SourceInv(log, i);
    assert log[..j][i] == log[i];
    NamedKind(log[j].request, log[j].key);
    SameKeyIff(log[i].request, log[i].key, log[j].request, log[j].key);
    forall k | i < k < j && log[k].Stored? ensures !SameQuery(log[k].request, log[j].request) {
      assert log[..j][k] == log[k];
      SameKeyIff(log[k].request, log[k].key, log[j].request, log[j].key);
    }
    assert Answers(log, log[i].source, i, j) && NoStoreBetween(log, i, j, log[j].request);
  }

  lemma LastStoreReaches(log: seq<Event>, i: nat, j: nat)
    requires i < j < |log| && log[i].Stored?
    ensures i <= LastStore(log[..j], log[i].key)
  {
    assert log[..j][i] == log[i];
  }

  lemma MissIsUnanswered(s: State, h: int, i: int, j: nat)
    requires Inv(s) && j < |s.log| && s.log[j].Missed? && s.log[j].redisOk
    ensures !Answers(s.log, h, i, j)
  {
    var log := s.log;
    if 0 <= i < j && log[i].Stored? && SameQuery(log[i].request, log[j].request) {
      SameKeyIff(log[i].request, log[i].key, log[j].request, log[j].key);
      LastStoreReaches(log, i, j);
      NamedKind(log[j].request, log[j].key);
      MissIsLate(s, i, j);
    }
  }

  lemma MissIsLate(s: State, i: nat, j: nat)
    requires TimeInv(s) && i < j < |s.log| && ReadInv(s.log, j) && Ttl(s.log[j].key) == AGG_TTL
    requires s.log[j].Missed? && s.log[j].redisOk && i <= LastStore(s.log[..j], s.log[j].key)
    ensures s.log[j].at - s.log[i].at >= 300_000_000
  {
    assert s.log[i].at <= s.log[LastStore(s.log[..j], s.log[j].key)].at;
  }

  /** A read that reaches Redis is answered from the cache exactly when some call for the same query
      stored its result less than 300 s before. The answer is then what the last such call computed and
      stored. Writes to the series in between make no difference: invalidation leaves these keys alone. */
  lemma HitIffStoredRecently(now: Micros, schedule: seq<Action>, j: nat)
    requires j < |Run(Init(now), schedule).log|
    requires var v := Run(Init(now), schedule).log[j]; v.Hit? || (v.Missed? && v.redisOk)
    ensures var log := Run(Init(now), schedule).log;
      && (log[j].Hit? <==> exists h, i :: Answers(log, h, i, j))
      && (log[j].Hit? ==>
            exists h, i :: Answers(log, h, i, j) && log[j].rows == log[i].rows && NoStoreBetween(log, i, j, log[j].request))
  {
    Reachable(now, schedule);
    var s := Run(Init(now), schedule);
    if s.log[j].Hit? {
      HitIsAnswered(s, j);
    } else {
      forall h, i ensures !Answers(s.log, h, i, j) { MissIsUnanswered(s, h, i, j); }
    }
  }

  /** What is answered: a result from the query is the one the call computed, one from the cache is the one its
      read found. */
  lemma RepliesOnRecord(now: Micros, schedule: seq<Action>, c: nat)
    requires c in Run(Init(now), schedule).calls
    ensures var s := Run(Init(now), schedule);
      match s.calls[c].pc
      case Replied(FromQuery(rows)) => exists i :: 0 <= i < |s.log| && s.log[i].Computed? && s.log[i].call == c && s.log[i].request == s.calls[c].request && s.log[i].rows == rows
      case Replied(FromCache(rows)) => exists i :: 0 <= i < |s.log| && s.log[i].Hit? && s.log[i].call == c && s.log[i].request == s.calls[c].request && s.log[i].rows == rows
      case _ => true
  {
    Reachable(now, schedule);
    assert CallInv(Run(Init(now), schedule), c);
  }

  /** Which requests are refused: those without a name or a window, and those whose given bounds, other than the
      zero time, are in the wrong order. */
  lemma RefusedIff(s: State, c: nat, req: Request)
    requires c !in s.calls
    ensures var s' := Step(s, GetAggregations(c, req));
      && c in s'.calls && s'.calls[c].request == req && s'.cache == s.cache
      && (s'.calls[c].pc == Replied(Invalid) <==>
            || req.device == "" || req.metric == "" || req.window == 0
            || (req.start.Instant? && req.end.Instant? && req.end.t < req.start.t
                && req.start.t != -62_135_596_800_000_000 && req.end.t != -62_135_596_800_000_000))
      && (s'.calls[c].pc != Replied(Invalid) ==> s'.calls[c].pc == Reading)
  {
  }

  lemma StoreThenRead(s: State, c: nat, c': nat)
    requires c in s.calls && c' in s.calls && s.calls[c].pc.Storing? && s.calls[c'].pc.Reading?
    requires s.calls[c'].key !in s.cache && Ttl(s.calls[c].key) == AGG_TTL
    ensures var s' := Step(Step(s, Store(c, Works)), Read(c', Works));
      && c' in s'.calls
      && (s'.calls[c'].pc == Replied(FromCache(s.calls[c].pc.rows)) <==> s.calls[c].key == s.calls[c'].key)
  {
    var s1 := Step(s, Store(c, Works));
    assert s1.calls[c'] == s.calls[c'] && s1.now == s.now;
    assert s1.cache == s.cache[s.calls[c].key := Entry(s.calls[c].pc.rows, s.now + AGG_TTL)];
  }

  /** What colons in names do: right after call `c` stored a result, a read for a key not cached before is
      answered with it exactly when the two requests have the same shape and their names read the
      same once joined, whichever way the joined name splits into device and metric. */
  lemma HitAfterStoreIff(s: State, c: nat, c': nat)
    requires c in s.calls && c' in s.calls && s.calls[c].pc.Storing? && s.calls[c'].pc.Reading?
    requires Named(s.calls[c].request, s.calls[c].key) && Named(s.calls[c'].request, s.calls[c'].key)
    requires s.calls[c'].key !in s.cache
    ensures var s' := Step(Step(s, Store(c, Works)), Read(c', Works));
      && c' in s'.calls
      && (s'.calls[c'].pc == Replied(FromCache(s.calls[c].pc.rows)) <==> SameQuery(s.calls[c].request, s.calls[c'].request))
  {
    NamedKind(s.calls[c].request, s.calls[c].key);
    SameKeyIff(s.calls[c].request, s.calls[c].key, s.calls[c'].request, s.calls[c'].key);
    StoreThenRead(s, c, c');
  }

  // ---------- the method ----------

  /** How the operations of one call went, should they come up. */
  datatype Visit = Visit(readAt: Micros, read: Outcome, queryAt: Micros, queryOk: bool, rows: Rows, storeAt: Micros, store: Outcome)

  class AggregationService {
    var cache: map<string, Entry>

    constructor ()
      ensures cache == map[]
    {
      cache := map[];
    }

    method CacheQueryResult(key: string, rows: Rows, now: Micros, o: Outcome)
      modifies this
      ensures cache == if o == FailsClean then old(cache) else old(cache)[key := Entry(rows, now + Ttl(key))]
    {
      var ttl := GetTtl(key);
      if o != FailsClean {
        cache := cache[key := Entry(rows, now + ttl)];
      }
    }

    /** What follows once the key is built. */
    method Answer(key: string, v: Visit) returns (reply: Reply)
      modifies this
      ensures (reply, cache) == ServeKey(old(cache), key, v)
    {
      if v.read == Works && key in cache && v.readAt < cache[key].expiry {
        return FromCache(cache[key].rows);
      }
      if !v.queryOk {
        return QueryFailed;
      }
      CacheQueryResult(key, v.rows, v.storeAt, v.store);
      reply := FromQuery(v.rows);
    }

    method GetAggregations(req: Request, v: Visit) returns (reply: Reply)
      modifies this
      ensures (reply, cache) == Serve(old(cache), req, v)
    {
      if !ValidRequest(req) {
        return Invalid;
      }
      reply := Answer(CacheKey(req), v);
    }
  }

  /** Reply and cache of one undisturbed call. */
  function Serve(cache: map<string, Entry>, req: Request, v: Visit): (Reply, map<string, Entry>) {
    if ValidRequest(req) then ServeKey(cache, CacheKey(req), v) else (Invalid, cache)
  }

  function ServeKey(cache: map<string, Entry>, key: string, v: Visit): (Reply, map<string, Entry>) {
    if v.read == Works && EntryLive(cache, key, v.readAt) then (FromCache(cache[key].rows), cache)
    else if !v.queryOk then (QueryFailed, cache)
    else if v.store == FailsClean then (FromQuery(v.rows), cache)
    else (FromQuery(v.rows), cache[key := Entry(v.rows, v.storeAt + Ttl(key))])
  }

  /** The steps of a call after its validation, with nothing else in between; those of a branch not taken
      change nothing but the clock. */
  function Alone(s: State, c: nat, v: Visit): State
    requires s.now <= v.readAt <= v.queryAt <= v.storeAt
  {
    var s1 := Step(Step(s, Tick(v.readAt - s.now)), Read(c, v.read));
    var s2 := Step(Step(s1, Tick(v.queryAt - v.readAt)), Query(c, v.queryOk, v.rows));
    Step(Step(s2, Tick(v.storeAt - v.queryAt)), Store(c, v.store))
  }

  lemma RepliedStays(s: State, c: nat, v: Visit)
    requires s.now <= v.readAt <= v.queryAt <= v.storeAt
    requires c in s.calls && s.calls[c].pc.Replied?
    ensures c in Alone(s, c, v).calls && Alone(s, c, v).calls[c] == s.calls[c] && Alone(s, c, v).cache == s.cache
  {
  }

  lemma ReadAlone(s: State, c: nat, v: Visit)
    requires s.now <= v.readAt <= v.queryAt <= v.storeAt
    requires c in s.calls && s.calls[c].pc.Reading?
    ensures var s' := Alone(s, c, v);
      var (reply, cache) := ServeKey(s.cache, s.calls[c].key, v);
      c in s'.calls && s'.calls[c].pc == Replied(reply) && s'.cache == cache
  {
    var call, s1 := s.calls[c], Step(Step(s, Tick(v.readAt - s.now)), Read(c, v.read));
    assert s1.cache == s.cache && s1.calls[c] == call.(pc :=
      if v.read == Works && EntryLive(s.cache, call.key, v.readAt) then Replied(FromCache(s.cache[call.key].rows)) else Querying);
    var s2 := Step(Step(s1, Tick(v.queryAt - v.readAt)), Query(c, v.queryOk, v.rows));
    assert s2.cache == s.cache && s2.calls[c].key == call.key;
  }

  /** The method is a run of the step system. */
  lemma ServeImplementsSteps(s: State, c: nat, req: Request, v: Visit)
    requires s.now <= v.readAt <= v.queryAt <= v.storeAt && c !in s.calls
    ensures var s' := Alone(Step(s, GetAggregations(c, req)), c, v);
      var (reply, cache) := Serve(s.cache, req, v);
      c in s'.calls && s'.calls[c].pc == Replied(reply) && s'.cache == cache
  {
    var s0 := Step(s, GetAggregations(c, req));
    if ValidRequest(req) {
      ReadAlone(s0, c, v);
    } else {
      RepliedStays(s0, c, v);
    }
  }
}
