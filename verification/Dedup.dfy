/** The SETNX claims that deduplicate by device and Unix second, with the history of what they let through. */
module Dedup {
  import opened Common
  import opened Telemetry

  /** One point let through; `marked` says whether its SETNX wrote the claim. */
  datatype Admission = Admission(slot: Slot, at: Micros, redis: Redis, marked: bool)

  /** Redis and the history of admissions. */
  datatype Ledger = Ledger(claims: Claims, admissions: seq<Admission>)

  const EMPTY: Ledger := Ledger(map[], [])

  /** TryMarkDedup: one SETNX on a slot at an instant. */
  function Try(l: Ledger, slot: Slot, now: Micros, redis: Redis): Ledger {
    var claims := ClaimsAfter(l.claims, slot, now, redis);
    if Admits(l.claims, slot, now, redis) then
      Ledger(claims, l.admissions + [Admission(slot, now, redis, redis != ErrorLost && !Live(l.claims, slot, now))])
    else Ledger(claims, l.admissions)
  }

  /** Redis forgetting a claim whose time is up. */
  function Forget(l: Ledger, slot: Slot, now: Micros): Ledger {
    if slot in l.claims && l.claims[slot] <= now then l.(claims := l.claims - {slot}) else l
  }

  ghost predicate Past(adms: seq<Admission>, now: Micros) {
    forall i :: 0 <= i < |adms| ==> adms[i].at <= now && (adms[i].redis == Healthy ==> adms[i].marked)
  }

  /** A marked admission keeps its slot claimed for a whole TTL. */
  ghost predicate Guarded(l: Ledger, now: Micros) {
    forall i :: 0 <= i < |l.admissions| && l.admissions[i].marked && now < l.admissions[i].at + DEDUP_TTL ==>
      l.admissions[i].slot in l.claims && l.claims[l.admissions[i].slot] >= l.admissions[i].at + DEDUP_TTL
  }

  /** Marked admissions of one slot are at least a TTL apart. */
  ghost predicate Spaced(adms: seq<Admission>) {
    forall i, j :: 0 <= i < j < |adms| && adms[i].marked && adms[j].marked && adms[i].slot == adms[j].slot ==>
      adms[i].at + DEDUP_TTL <= adms[j].at
  }

  /** `adms[i]` wrote the claim on `slot` that runs out at `expiry`. */
  predicate Wrote(adms: seq<Admission>, i: int, slot: Slot, expiry: Micros) {
    0 <= i < |adms| && adms[i].marked && adms[i].slot == slot && adms[i].at + DEDUP_TTL == expiry
  }

  /** Nothing else writes claims. */
  ghost predicate Founded(l: Ledger) {
    forall slot :: slot in l.claims ==> exists i :: Wrote(l.admissions, i, slot, l.claims[slot])
  }

  ghost predicate Consistent(l: Ledger, now: Micros) {
    Past(l.admissions, now) && Guarded(l, now) && Spaced(l.admissions) && Founded(l)
  }

  lemma TryFounded(l: Ledger, slot: Slot, now: Micros, redis: Redis)
    requires Founded(l)
    ensures Founded(Try(l, slot, now, redis))
  {
    var l' := Try(l, slot, now, redis);
    forall k | k in l'.claims ensures exists i :: Wrote(l'.admissions, i, k, l'.claims[k]) {
      if k in l.claims && l'.claims[k] == l.claims[k] {
        var i :| Wrote(l.admissions, i, k, l.claims[k]);
        assert Wrote(l'.admissions, i, k, l'.claims[k]);
      } else {
        assert Wrote(l'.admissions, |l.admissions|, slot, now + DEDUP_TTL);
      }
    }
  }

  lemma TrySpaced(l: Ledger, slot: Slot, now: Micros, redis: Redis)
    requires Past(l.admissions, now) && Guarded(l, now) && Spaced(l.admissions)
    ensures Spaced(Try(l, slot, now, redis).admissions)
  {
  }

  lemma TryGuarded(l: Ledger, slot: Slot, now: Micros, redis: Redis)
    requires Past(l.admissions, now) && Guarded(l, now)
    ensures Guarded(Try(l, slot, now, redis), now)
  {
  }

  lemma TryConsistent(l: Ledger, slot: Slot, now: Micros, redis: Redis)
    requires Consistent(l, now)
    ensures Consistent(Try(l, slot, now, redis), now)
  {
    TryFounded(l, slot, now, redis);
    TrySpaced(l, slot, now, redis);
    TryGuarded(l, slot, now, redis);
  }

  lemma WaitConsistent(l: Ledger, now: Micros, later: Micros)
    requires Consistent(l, now) && now <= later
    ensures Consistent(l, later)
  {
  }

  lemma ForgetConsistent(l: Ledger, slot: Slot, now: Micros)
    requires Consistent(l, now)
    ensures Consistent(Forget(l, slot, now), now)
  {
    var l' := Forget(l, slot, now);
    forall k | k in l'.claims ensures exists i :: Wrote(l'.admissions, i, k, l'.claims[k]) {
      var i :| Wrote(l.admissions, i, k, l.claims[k]);
      assert Wrote(l'.admissions, i, k, l'.claims[k]);
    }
  }

  /** With a working Redis a point is turned away exactly when some admission wrote the claim
      on its device and second less than 600 s ago. */
  lemma DuplicateIffRecentAdmission(l: Ledger, slot: Slot, now: Micros)
    requires Consistent(l, now)
    ensures !Admits(l.claims, slot, now, Healthy) <==>
      exists i :: 0 <= i < |l.admissions| && l.admissions[i].marked && l.admissions[i].slot == slot
        && now - l.admissions[i].at < 600_000_000
  {
    if Live(l.claims, slot, now) {
      var i :| Wrote(l.admissions, i, slot, l.claims[slot]);
      assert l.admissions[i].marked && now < l.admissions[i].at + DEDUP_TTL;
    }
  }
}
