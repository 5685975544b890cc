/** The records that travel through the telemetry path, and the two stores they reach:
    the Redis claim table used for deduplication and the metrics table.

    Instants and durations are whole microseconds, the resolution of the time column. */
module Telemetry {
  import opened Common

  const DEDUP_TTL: int := 600 * SECOND
  const FUTURE_SKEW: int := 5 * SECOND
  const MAX_BATCH_SIZE: nat := 1000

  /** The Unix second an instant falls in. */
  function Unix(t: Micros): int {
    t / SECOND
  }

  /** A floating-point number, with rounding left out and the non-finite values kept. */
  datatype Float = Finite(r: real) | NaN | PosInf | NegInf

  predicate IsFinite(f: Float) {
    f.Finite? && -1e308 <= f.r <= 1e308
  }

  datatype Request = Request(device: string, metric: string, value: Float, unixSeconds: int, status: string)

  datatype Point = Point(time: Micros, device: string, metric: string, value: Float, status: string)

  /** The instant a request is stored under, or nothing when the request is invalid. */
  datatype Resolved = Rejected | At(time: Micros)

  function Resolve(req: Request, now: Micros): Resolved {
    if req.device == "" || req.metric == "" || !IsFinite(req.value) then Rejected
    else if req.unixSeconds <= 0 then At(now)
    else if req.unixSeconds * SECOND > now + FUTURE_SKEW then Rejected
    else At(req.unixSeconds * SECOND)
  }

  function MakePoint(req: Request, time: Micros): Point {
    Point(time, req.device, req.metric, req.value, req.status)
  }

  /** Which requests are valid, and the instant a valid one is stored under: its own second, or the clock's
      time when it names none. */
  lemma ResolveIff(req: Request, now: Micros)
    ensures Resolve(req, now).At? <==>
      && req.device != "" && req.metric != ""
      && req.value.Finite? && -1e308 <= req.value.r <= 1e308
      && (req.unixSeconds <= 0 || req.unixSeconds * 1_000_000 <= now + 5_000_000)
    ensures Resolve(req, now).At? ==> Resolve(req, now).time == if req.unixSeconds <= 0 then now else req.unixSeconds * 1_000_000
  {
  }

  /** What every stored point satisfies when the clock shows `now`. */
  predicate ValidPoint(p: Point, now: Micros) {
    p.device != "" && p.metric != "" && IsFinite(p.value) && p.time <= now + FUTURE_SKEW
  }

  // ---------- deduplication claims ----------

  /** A deduplication key: one device in one Unix second. The metric name is not part of it. */
  datatype Slot = Slot(device: string, second: int)

  function SlotOf(p: Point): Slot {
    Slot(p.device, Unix(p.time))
  }

  /** Expiry instants of the claims held in Redis. */
  type Claims = map<Slot, Micros>

  predicate Live(claims: Claims, slot: Slot, now: Micros) {
    slot in claims && now < claims[slot]
  }

  function Mark(claims: Claims, slot: Slot, now: Micros): Claims {
    if Live(claims, slot, now) then claims else claims[slot := now + DEDUP_TTL]
  }

  /** How Redis answers one SETNX: normally, with an error after the command took effect,
      or with an error and no effect (a nil client behaves like the last). */
  datatype Redis = Healthy | ErrorApplied | ErrorLost

  /** Whether TryMarkDedup reports the key as newly set. Errors count as newly set. */
  predicate Admits(claims: Claims, slot: Slot, now: Micros, redis: Redis) {
    redis != Healthy || !Live(claims, slot, now)
  }

  function ClaimsAfter(claims: Claims, slot: Slot, now: Micros, redis: Redis): Claims {
    if redis == ErrorLost then claims else Mark(claims, slot, now)
  }

  // ---------- the metrics table ----------

  datatype Key = Key(time: Micros, device: string, metric: string)

  /** A point together with the number of the admission that let it through deduplication. */
  datatype Admitted = Admitted(point: Point, adm: nat)

  function KeyOf(p: Point): Key {
    Key(p.time, p.device, p.metric)
  }

  type Table = map<Key, Admitted>

  datatype Written = Written(table: Table, ok: bool)

  /** INSERT ... ON CONFLICT DO NOTHING. */
  function InsertMetric(t: Table, a: Admitted, o: Outcome): Written {
    if o == FailsClean then Written(t, false)
    else Written(if KeyOf(a.point) in t then t else t[KeyOf(a.point) := a], o == Works)
  }

  predicate DistinctKeys(ps: seq<Admitted>) {
    forall i, j :: 0 <= i < j < |ps| ==> KeyOf(ps[i].point) != KeyOf(ps[j].point)
  }

  predicate FreshKeys(t: Table, ps: seq<Admitted>) {
    forall i :: 0 <= i < |ps| ==> KeyOf(ps[i].point) !in t
  }

  function AddAll(t: Table, ps: seq<Admitted>): Table {
    if ps == [] then t
    else AddAll(t, ps[..|ps| - 1])[KeyOf(ps[|ps| - 1].point) := ps[|ps| - 1]]
  }

  /** COPY: all rows or none; a primary-key clash with the table or inside the batch fails it. */
  function InsertMetricBatch(t: Table, ps: seq<Admitted>, o: Outcome): Written {
    if ps == [] || !DistinctKeys(ps) || !FreshKeys(t, ps) || o == FailsClean then Written(t, false)
    else Written(AddAll(t, ps), o == Works)
  }

  function Write(t: Table, ps: seq<Admitted>, bulk: bool, o: Outcome): Written
    requires !bulk ==> |ps| == 1
  {
    if bulk then InsertMetricBatch(t, ps, o) else InsertMetric(t, ps[0], o)
  }

  /** What a success reply promises: one row per accepted key, and for a bulk insert
      exactly the accepted points. */
  predicate Stored(t: Table, ps: seq<Admitted>) {
    && DistinctKeys(ps)
    && (forall i :: 0 <= i < |ps| ==> KeyOf(ps[i].point) in t)
    && (|ps| >= 2 ==> forall i :: 0 <= i < |ps| ==> t[KeyOf(ps[i].point)] == ps[i])
  }

  /** Later states of a table that only ever gains rows. */
  predicate Extends(t: Table, t': Table) {
    forall k :: k in t ==> k in t' && t'[k] == t[k]
  }

  lemma StoredStays(t: Table, t': Table, ps: seq<Admitted>)
    requires Stored(t, ps) && Extends(t, t')
    ensures Stored(t', ps)
  {
  }

  lemma {:induction false} AddAllRows(t: Table, ps: seq<Admitted>)
    requires DistinctKeys(ps) && FreshKeys(t, ps)
    ensures Extends(t, AddAll(t, ps))
    ensures forall i :: 0 <= i < |ps| ==> KeyOf(ps[i].point) in AddAll(t, ps) && AddAll(t, ps)[KeyOf(ps[i].point)] == ps[i]
    ensures forall k :: k in AddAll(t, ps) && k !in t ==> AddAll(t, ps)[k] in ps && KeyOf(AddAll(t, ps)[k].point) == k
  {
    if ps != [] {
      var init := ps[..|ps| - 1];
      assert DistinctKeys(init) && FreshKeys(t, init);
      AddAllRows(t, init);
      forall k | k in AddAll(t, ps) && k !in t
        ensures AddAll(t, ps)[k] in ps && KeyOf(AddAll(t, ps)[k].point) == k
      {
        if k != KeyOf(ps[|ps| - 1].point) {
          assert AddAll(t, init)[k] in init;
        }
      }
    }
  }

  /** One write keeps every earlier row, adds only rows of its own points, and on success
      leaves every one of its keys present. */
  lemma WriteRows(t: Table, ps: seq<Admitted>, bulk: bool, o: Outcome)
    requires !bulk ==> |ps| == 1
    ensures Extends(t, Write(t, ps, bulk, o).table)
    ensures forall k :: k in Write(t, ps, bulk, o).table && k !in t ==>
      Write(t, ps, bulk, o).table[k] in ps && KeyOf(Write(t, ps, bulk, o).table[k].point) == k
    ensures Write(t, ps, bulk, o).ok ==> Stored(Write(t, ps, bulk, o).table, ps)
  {
    if bulk && DistinctKeys(ps) && FreshKeys(t, ps) {
      AddAllRows(t, ps);
    }
  }

  /** A single insert adds its row exactly when its time, device and metric are new and the statement takes
      effect, keeps an old row, and succeeds exactly when no error is reported. */
  lemma SingleInsertAdds(t: Table, a: Admitted, o: Outcome)
    ensures var w, k := InsertMetric(t, a, o), Key(a.point.time, a.point.device, a.point.metric);
      && (w.ok <==> o == Works)
      && Extends(t, w.table)
      && (k in w.table <==> k in t || o != FailsClean)
      && (k in w.table && k !in t ==> w.table[k] == a)
      && (forall k' :: k' in w.table && k' != k ==> k' in t)
  {
  }

  /** A bulk insert is all or nothing: it adds every row, and only those, exactly when there is one, no two
      share a time, device and metric, none of these is in the table, and the statement takes effect;
      otherwise the table stays. It succeeds exactly when it adds them and no error is reported. */
  lemma BulkAllOrNothing(t: Table, ps: seq<Admitted>, o: Outcome)
    ensures var w := InsertMetricBatch(t, ps, o);
      var fits := ps != [] && DistinctKeys(ps) && (forall i :: 0 <= i < |ps| ==> KeyOf(ps[i].point) !in t);
      && (w.ok <==> fits && o == Works)
      && (if fits && o != FailsClean then
            && Extends(t, w.table)
            && (forall i :: 0 <= i < |ps| ==> KeyOf(ps[i].point) in w.table && w.table[KeyOf(ps[i].point)] == ps[i])
            && (forall k :: k in w.table && k !in t ==> w.table[k] in ps && KeyOf(w.table[k].point) == k)
          else w.table == t)
  {
    if DistinctKeys(ps) && FreshKeys(t, ps) {
      AddAllRows(t, ps);
    }
  }
}
