/** The loop of SubmitBatch that decides which requests of a batch are written. */
module Screening {
  import opened Common
  import opened Telemetry
  import opened Dedup

  /** When the loop handled one request: the clock read by validation, the instant of the SETNX,
      and how Redis answered it. */
  datatype Visit = Visit(resolveAt: Micros, claimAt: Micros, redis: Redis)

  datatype Screened = Screened(ledger: Ledger, kept: seq<Admitted>, rejected: nat)

  /** The effect of handling one more request. */
  function Handle(sc: Screened, req: Request, v: Visit): Screened {
    match Resolve(req, v.resolveAt)
    case Rejected => sc.(rejected := sc.rejected + 1)
    case At(time) =>
      var p := MakePoint(req, time);
      var ledger := Try(sc.ledger, SlotOf(p), v.claimAt, v.redis);
      if Admits(sc.ledger.claims, SlotOf(p), v.claimAt, v.redis) then
        Screened(ledger, sc.kept + [Admitted(p, |sc.ledger.admissions|)], sc.rejected)
      else Screened(ledger, sc.kept, sc.rejected + 1)
  }

  function Screen(l: Ledger, reqs: seq<Request>, visits: seq<Visit>): Screened
    requires |visits| == |reqs|
  {
    if reqs == [] then Screened(l, [], 0)
    else Handle(Screen(l, reqs[..|reqs| - 1], visits[..|reqs| - 1]), reqs[|reqs| - 1], visits[|reqs| - 1])
  }

  predicate Valid(reqs: seq<Request>, visits: seq<Visit>, i: nat)
    requires |visits| == |reqs| && i < |reqs|
  {
    Resolve(reqs[i], visits[i].resolveAt).At?
  }

  /** The point request `i` would be stored as. */
  function PointAt(reqs: seq<Request>, visits: seq<Visit>, i: nat): Point
    requires |visits| == |reqs| && i < |reqs| && Valid(reqs, visits, i)
  {
    MakePoint(reqs[i], Resolve(reqs[i], visits[i].resolveAt).time)
  }

  /** The device and second of request `i`. */
  function SlotAt(reqs: seq<Request>, visits: seq<Visit>, i: nat): Slot
    requires |visits| == |reqs| && i < |reqs| && Valid(reqs, visits, i)
  {
    SlotOf(PointAt(reqs, visits, i))
  }

  /** Request `i` goes through, stated without the loop: it is valid, its device and second were
      not claimed when the batch came in (or that claim has run out), and no earlier request of
      the batch that went through claimed them within the last 600 s. */
  predicate Accepted(claims: Claims, reqs: seq<Request>, visits: seq<Visit>, i: nat)
    requires |visits| == |reqs| && i < |reqs|
    decreases i
  {
    && Valid(reqs, visits, i)
    && !Live(claims, SlotAt(reqs, visits, i), visits[i].claimAt)
    && forall j: nat :: j < i && Accepted(claims, reqs, visits, j) && SlotAt(reqs, visits, j) == SlotAt(reqs, visits, i) ==>
         visits[j].claimAt + DEDUP_TTL <= visits[i].claimAt
  }

  /** The accepted points, in the order of the requests. */
  function AcceptedPoints(claims: Claims, reqs: seq<Request>, visits: seq<Visit>, n: nat): seq<Point>
    requires |visits| == |reqs| && n <= |reqs|
  {
    if n == 0 then []
    else AcceptedPoints(claims, reqs, visits, n - 1) + (if Accepted(claims, reqs, visits, n - 1) then [PointAt(reqs, visits, n - 1)] else [])
  }

  function Points(ps: seq<Admitted>): seq<Point> {
    seq(|ps|, i requires 0 <= i < |ps| => ps[i].point)
  }

  /** Redis answered every SETNX, and the SETNX instants do not go back. */
  ghost predicate Orderly(visits: seq<Visit>) {
    && (forall i :: 0 <= i < |visits| ==> visits[i].redis == Healthy)
    && (forall i, j :: 0 <= i < j < |visits| ==> visits[i].claimAt <= visits[j].claimAt)
  }

  function Prefix(l: Ledger, reqs: seq<Request>, visits: seq<Visit>, n: nat): Screened
    requires |visits| == |reqs| && n <= |reqs|
  {
    Screen(l, reqs[..n], visits[..n])
  }

  lemma PrefixStep(l: Ledger, reqs: seq<Request>, visits: seq<Visit>, n: nat)
    requires |visits| == |reqs| && n < |reqs|
    ensures Prefix(l, reqs, visits, n + 1) == Handle(Prefix(l, reqs, visits, n), reqs[n], visits[n])
  {
    assert reqs[..n + 1][..n] == reqs[..n] && visits[..n + 1][..n] == visits[..n];
  }

  /** After `n` requests a slot is claimed at `t` iff it was at the start, or one of them
      went through and claimed it less than 600 s before `t`. */
  ghost predicate ClaimedAfter(l: Ledger, reqs: seq<Request>, visits: seq<Visit>, n: nat, slot: Slot, t: Micros)
    requires |visits| == |reqs| && n <= |reqs|
  {
    || Live(l.claims, slot, t)
    || (exists j: nat :: j < n && Accepted(l.claims, reqs, visits, j) && SlotAt(reqs, visits, j) == slot && t < visits[j].claimAt + DEDUP_TTL)
  }

  lemma {:induction false} LiveAfter(l: Ledger, reqs: seq<Request>, visits: seq<Visit>, n: nat, slot: Slot, t: Micros)
    requires |visits| == |reqs| && n <= |reqs| && Orderly(visits)
    requires forall i :: 0 <= i < n ==> visits[i].claimAt <= t
    ensures Live(Prefix(l, reqs, visits, n).ledger.claims, slot, t) <==> ClaimedAfter(l, reqs, visits, n, slot, t)
    decreases n, 1
  {
    if n > 0 {
      var i := n - 1;
      PrefixStep(l, reqs, visits, i);
      LiveAfter(l, reqs, visits, i, slot, t);
      AcceptedIff(l, reqs, visits, i);
      assert forall j: nat :: j < i && Accepted(l.claims, reqs, visits, j) ==> j < n;
    }
  }

  /** The loop lets request `i` through exactly when the loop-free condition holds. */
  lemma {:induction false} AcceptedIff(l: Ledger, reqs: seq<Request>, visits: seq<Visit>, i: nat)
    requires |visits| == |reqs| && i < |reqs| && Orderly(visits)
    ensures Accepted(l.claims, reqs, visits, i) <==>
      Valid(reqs, visits, i) && Admits(Prefix(l, reqs, visits, i).ledger.claims, SlotAt(reqs, visits, i), visits[i].claimAt, visits[i].redis)
    decreases i, 2
  {
    if Valid(reqs, visits, i) {
      LiveAfter(l, reqs, visits, i, SlotAt(reqs, visits, i), visits[i].claimAt);
    }
  }

  /** With Redis working, the loop keeps exactly the accepted requests, in order. */
  lemma {:induction false} ScreenKeepsAccepted(l: Ledger, reqs: seq<Request>, visits: seq<Visit>, n: nat)
    requires |visits| == |reqs| && n <= |reqs| && Orderly(visits)
    ensures Points(Prefix(l, reqs, visits, n).kept) == AcceptedPoints(l.claims, reqs, visits, n)
  {
    if n > 0 {
      PrefixStep(l, reqs, visits, n - 1);
      ScreenKeepsAccepted(l, reqs, visits, n - 1);
      AcceptedIff(l, reqs, visits, n - 1);
    }
  }

  /** However Redis behaves, every request is either kept or counted as rejected. */
  lemma {:induction false} ScreenCounts(l: Ledger, reqs: seq<Request>, visits: seq<Visit>)
    requires |visits| == |reqs|
    ensures |Screen(l, reqs, visits).kept| + Screen(l, reqs, visits).rejected == |reqs|
  {
    if reqs != [] {
      ScreenCounts(l, reqs[..|reqs| - 1], visits[..|reqs| - 1]);
    }
  }

  /** The batch's SETNX calls all fall within one TTL. */
  ghost predicate Short(visits: seq<Visit>) {
    forall i, j :: 0 <= i < j < |visits| ==> visits[j].claimAt < visits[i].claimAt + DEDUP_TTL
  }

  lemma {:induction false} AcceptedPointsFrom(claims: Claims, reqs: seq<Request>, visits: seq<Visit>, n: nat, k: nat)
    requires |visits| == |reqs| && n <= |reqs| && k < |AcceptedPoints(claims, reqs, visits, n)|
    ensures exists i: nat :: i < n && Accepted(claims, reqs, visits, i) && PointAt(reqs, visits, i) == AcceptedPoints(claims, reqs, visits, n)[k]
  {
    if k < |AcceptedPoints(claims, reqs, visits, n - 1)| {
      AcceptedPointsFrom(claims, reqs, visits, n - 1, k);
    } else {
      assert Accepted(claims, reqs, visits, n - 1);
    }
  }

  ghost predicate DistinctSlots(ps: seq<Point>) {
    forall i, j :: 0 <= i < j < |ps| ==> SlotOf(ps[i]) != SlotOf(ps[j])
  }

  lemma {:induction false} AcceptedSlotsDiffer(claims: Claims, reqs: seq<Request>, visits: seq<Visit>, n: nat)
    requires |visits| == |reqs| && n <= |reqs| && Short(visits)
    ensures DistinctSlots(AcceptedPoints(claims, reqs, visits, n))
  {
    if n > 0 {
      AcceptedSlotsDiffer(claims, reqs, visits, n - 1);
      var ps := AcceptedPoints(claims, reqs, visits, n - 1);
      if Accepted(claims, reqs, visits, n - 1) {
        forall i | 0 <= i < |ps| ensures SlotOf(ps[i]) != SlotAt(reqs, visits, n - 1) {
          AcceptedPointsFrom(claims, reqs, visits, n - 1, i);
        }
        assert AcceptedPoints(claims, reqs, visits, n) == ps + [PointAt(reqs, visits, n - 1)];
      } else {
        assert AcceptedPoints(claims, reqs, visits, n) == ps;
      }
    }
  }

  // ---------- clashes inside a batch ----------

  /** The loop lets request `i` through: it is valid, and its SETNX says the key is new. */
  predicate LetThrough(l: Ledger, reqs: seq<Request>, visits: seq<Visit>, i: nat)
    requires |visits| == |reqs| && i < |reqs|
  {
    && Valid(reqs, visits, i)
    && Admits(Prefix(l, reqs, visits, i).ledger.claims, SlotAt(reqs, visits, i), visits[i].claimAt, visits[i].redis)
  }

  /** Requests `i` and `j` ask for the same time, device and metric. */
  predicate SameKey(reqs: seq<Request>, visits: seq<Visit>, i: nat, j: nat)
    requires |visits| == |reqs| && i < |reqs| && j < |reqs|
  {
    Valid(reqs, visits, i) && Valid(reqs, visits, j) && KeyOf(PointAt(reqs, visits, i)) == KeyOf(PointAt(reqs, visits, j))
  }

  /** `ps` holds a point under that key. */
  predicate HasKey(ps: seq<Admitted>, key: Key) {
    exists k :: 0 <= k < |ps| && KeyOf(ps[k].point) == key
  }

  /** One of the first `n` requests was let through and asks for the key of request `i`. */
  predicate Precedes(l: Ledger, reqs: seq<Request>, visits: seq<Visit>, n: nat, i: nat)
    requires |visits| == |reqs| && n <= |reqs| && i < |reqs|
  {
    exists j: nat :: j < n && LetThrough(l, reqs, visits, j) && SameKey(reqs, visits, i, j)
  }

  lemma HasKeyAppends(ps: seq<Admitted>, ps': seq<Admitted>, key: Key)
    requires |ps'| == |ps| + 1 && ps'[..|ps|] == ps
    ensures HasKey(ps', key) <==> HasKey(ps, key) || KeyOf(ps'[|ps|].point) == key
  {
    assert forall k :: 0 <= k < |ps| ==> ps'[k] == ps[k];
  }

  lemma PrecedesAppends(l: Ledger, reqs: seq<Request>, visits: seq<Visit>, n: nat, i: nat)
    requires |visits| == |reqs| && n < |reqs| && i < |reqs|
    ensures Precedes(l, reqs, visits, n + 1, i) <==> Precedes(l, reqs, visits, n, i) || (LetThrough(l, reqs, visits, n) && SameKey(reqs, visits, i, n))
  {
  }

  lemma PrefixKeeps(l: Ledger, reqs: seq<Request>, visits: seq<Visit>, n: nat)
    requires |visits| == |reqs| && n < |reqs|
    ensures var before, after := Prefix(l, reqs, visits, n).kept, Prefix(l, reqs, visits, n + 1).kept;
      if LetThrough(l, reqs, visits, n) then |after| == |before| + 1 && after[..|before|] == before && after[|before|].point == PointAt(reqs, visits, n)
      else after == before
  {
    PrefixStep(l, reqs, visits, n);
  }

  /** The keys kept are those of the requests let through. */
  lemma {:induction false} KeptKeys(l: Ledger, reqs: seq<Request>, visits: seq<Visit>, n: nat, i: nat)
    requires |visits| == |reqs| && n <= |reqs| && i < |reqs| && Valid(reqs, visits, i)
    ensures HasKey(Prefix(l, reqs, visits, n).kept, KeyOf(PointAt(reqs, visits, i))) <==> Precedes(l, reqs, visits, n, i)
  {
    if n > 0 {
      KeptKeys(l, reqs, visits, n - 1, i);
      PrefixKeeps(l, reqs, visits, n - 1);
      PrecedesAppends(l, reqs, visits, n - 1, i);
      if LetThrough(l, reqs, visits, n - 1) {
        HasKeyAppends(Prefix(l, reqs, visits, n - 1).kept, Prefix(l, reqs, visits, n).kept, KeyOf(PointAt(reqs, visits, i)));
      }
    }
  }

  /** What is kept comes from requests let through. */
  lemma {:induction false} KeptFrom(l: Ledger, reqs: seq<Request>, visits: seq<Visit>, n: nat, k: nat)
    requires |visits| == |reqs| && n <= |reqs| && k < |Prefix(l, reqs, visits, n).kept|
    ensures exists i: nat :: i < n && LetThrough(l, reqs, visits, i) && Prefix(l, reqs, visits, n).kept[k].point == PointAt(reqs, visits, i)
  {
    if n > 0 {
      var before := Prefix(l, reqs, visits, n - 1).kept;
      PrefixKeeps(l, reqs, visits, n - 1);
      if k < |before| {
        KeptFrom(l, reqs, visits, n - 1, k);
        assert Prefix(l, reqs, visits, n).kept[k] == before[k];
      }
    }
  }

  ghost predicate NoClash(l: Ledger, reqs: seq<Request>, visits: seq<Visit>, n: nat)
    requires |visits| == |reqs| && n <= |reqs|
  {
    forall i: nat, j: nat :: i < j < n && LetThrough(l, reqs, visits, i) && LetThrough(l, reqs, visits, j) ==> !SameKey(reqs, visits, i, j)
  }

  lemma DistinctAppends(ps: seq<Admitted>, ps': seq<Admitted>)
    requires |ps'| == |ps| + 1 && ps'[..|ps|] == ps
    ensures DistinctKeys(ps') <==> DistinctKeys(ps) && !HasKey(ps, KeyOf(ps'[|ps|].point))
  {
    assert forall k :: 0 <= k < |ps| ==> ps'[k] == ps[k];
  }

  lemma ClashAppends(l: Ledger, reqs: seq<Request>, visits: seq<Visit>, n: nat)
    requires |visits| == |reqs| && n < |reqs|
    ensures NoClash(l, reqs, visits, n + 1) <==> NoClash(l, reqs, visits, n) && !(LetThrough(l, reqs, visits, n) && Precedes(l, reqs, visits, n, n))
  {
  }

  /** For any behaviour of Redis, the points kept have different keys exactly when no two of the requests
      let through ask for the same key. */
  lemma {:induction false} DistinctIffNoClash(l: Ledger, reqs: seq<Request>, visits: seq<Visit>, n: nat)
    requires |visits| == |reqs| && n <= |reqs|
    ensures DistinctKeys(Prefix(l, reqs, visits, n).kept) <==> NoClash(l, reqs, visits, n)
  {
    if n > 0 {
      DistinctIffNoClash(l, reqs, visits, n - 1);
      PrefixKeeps(l, reqs, visits, n - 1);
      ClashAppends(l, reqs, visits, n - 1);
      if LetThrough(l, reqs, visits, n - 1) {
        KeptKeys(l, reqs, visits, n - 1, n - 1);
        DistinctAppends(Prefix(l, reqs, visits, n - 1).kept, Prefix(l, reqs, visits, n).kept);
      }
    }
  }

  /** With Redis working, a batch whose SETNX calls fall within one TTL never clashes with itself: its bulk
      insert can only fail on rows that were in the table already, or on a database error. */
  lemma BatchNeverClashesWithItself(l: Ledger, reqs: seq<Request>, visits: seq<Visit>, t: Table)
    requires |visits| == |reqs| && Orderly(visits) && Short(visits)
    ensures var kept := Screen(l, reqs, visits).kept;
      DistinctKeys(kept) && (InsertMetricBatch(t, kept, Works).ok <==> kept != [] && FreshKeys(t, kept))
  {
    var kept := Screen(l, reqs, visits).kept;
    assert reqs[..|reqs|] == reqs && visits[..|reqs|] == visits;
    ScreenKeepsAccepted(l, reqs, visits, |reqs|);
    AcceptedSlotsDiffer(l.claims, reqs, visits, |reqs|);
    forall i, j | 0 <= i < j < |kept| ensures KeyOf(kept[i].point) != KeyOf(kept[j].point) {
      assert SlotOf(Points(kept)[i]) != SlotOf(Points(kept)[j]);
    }
  }

  /** With Redis working and any duration, the points kept have different keys exactly when no two accepted
      requests ask for the same key. */
  lemma HealthyClashIff(l: Ledger, reqs: seq<Request>, visits: seq<Visit>)
    requires |visits| == |reqs| && Orderly(visits)
    ensures DistinctKeys(Screen(l, reqs, visits).kept) <==>
      forall i: nat, j: nat :: i < j < |reqs| && Accepted(l.claims, reqs, visits, i) && Accepted(l.claims, reqs, visits, j) ==> !SameKey(reqs, visits, i, j)
  {
    assert reqs[..|reqs|] == reqs && visits[..|reqs|] == visits;
    DistinctIffNoClash(l, reqs, visits, |reqs|);
    forall i: nat | i < |reqs| ensures LetThrough(l, reqs, visits, i) <==> Accepted(l.claims, reqs, visits, i) { AcceptedIff(l, reqs, visits, i); }
  }

  /** No SETNX of the batch got an answer. */
  ghost predicate Outage(visits: seq<Visit>) {
    forall i :: 0 <= i < |visits| ==> visits[i].redis != Healthy
  }

  /** During a Redis outage every valid request is let through, so the points kept have different keys
      exactly when no two valid requests of the batch ask for the same key. */
  lemma OutageClashIff(l: Ledger, reqs: seq<Request>, visits: seq<Visit>)
    requires |visits| == |reqs| && Outage(visits)
    ensures DistinctKeys(Screen(l, reqs, visits).kept) <==> forall i: nat, j: nat :: i < j < |reqs| ==> !SameKey(reqs, visits, i, j)
  {
    assert reqs[..|reqs|] == reqs && visits[..|reqs|] == visits;
    DistinctIffNoClash(l, reqs, visits, |reqs|);
    forall i: nat, j: nat | i < j < |reqs| && SameKey(reqs, visits, i, j)
      ensures LetThrough(l, reqs, visits, i) && LetThrough(l, reqs, visits, j)
    {
    }
  }

  /** During an outage two requests for one key, anywhere in a batch, make the whole bulk insert fail on
      every table; without such a pair it succeeds on a working database exactly when something is
      valid and no key is in the table yet. */
  lemma OutageFailsRepeatedRequest(l: Ledger, reqs: seq<Request>, visits: seq<Visit>, t: Table, o: Outcome)
    requires |visits| == |reqs| && Outage(visits)
    ensures var kept := Screen(l, reqs, visits).kept;
      && ((exists i: nat, j: nat :: i < j < |reqs| && SameKey(reqs, visits, i, j)) ==> !InsertMetricBatch(t, kept, o).ok)
      && ((forall i: nat, j: nat :: i < j < |reqs| ==> !SameKey(reqs, visits, i, j)) ==>
            (InsertMetricBatch(t, kept, o).ok <==> o == Works && kept != [] && FreshKeys(t, kept)))
  {
    OutageClashIff(l, reqs, visits);
  }
}
