/** When a threshold fires on a value, and the history of values that CHANGE thresholds compare with. */
module Thresholds {
  import opened Common
  import opened Keys

  /** How long an alert suppresses further alerts of its device. */
  const ALERT_TTL: Micros := 300 * SECOND

  /** What a silence rule is about: all metrics of its device, or one. */
  datatype Scope = AllMetrics | OneMetric(metric: string)

  predicate Covers(scope: Scope, metric: string) {
    scope == AllMetrics || scope == OneMetric(metric)
  }

  datatype Kind = High | Low | Range | Change

  datatype Threshold = Threshold(kind: Kind, lower: real, upper: real, changePercent: real, severity: string)

  datatype Last = NoLast | Last(value: real)

  type History = map<string, real>

  function LastOf(h: History, key: string): Last {
    if key in h then Last(h[key]) else NoLast
  }

  /** The branches of the evaluator's switch. */
  predicate Fires(t: Threshold, value: real, last: Last) {
    match t.kind
    case High => value > t.upper
    case Low => value < t.lower
    case Range => value < t.lower || value > t.upper
    case Change =>
      last.Last? && last.value != 0.0
      && var percent := (value - last.value) / last.value * 100.0;
         percent > t.changePercent || percent < -t.changePercent
  }

  /** HIGH is above its upper bound, LOW below its lower, RANGE outside the two. */
  lemma BoundsFireIff(t: Threshold, value: real, last: Last)
    ensures t.kind == High ==> (Fires(t, value, last) <==> value > t.upper)
    ensures t.kind == Low ==> (Fires(t, value, last) <==> value < t.lower)
    ensures t.kind == Range ==> (Fires(t, value, last) <==> !(t.lower <= value <= t.upper))
  {
  }

  function Abs(x: real): real {
    if x < 0.0 then -x else x
  }

  /** There is a last value, it is not zero, and the new one differs from it by more than the
      threshold's percentage of its size. */
  predicate ChangedEnough(t: Threshold, value: real, last: Last) {
    last.Last? && last.value != 0.0 && 100.0 * Abs(value - last.value) > t.changePercent * Abs(last.value)
  }

  /** A CHANGE threshold compares the size of the change with the size of the old value,
      whatever the sign of either. */
  lemma ChangeFiresIff(t: Threshold, value: real, last: Last)
    requires t.kind == Change
    ensures Fires(t, value, last) <==> ChangedEnough(t, value, last)
  {
    if last.Last? && last.value != 0.0 {
      var d, l, p := value - last.value, last.value, t.changePercent;
      var q := d / l;
      assert q * l == d;
      ScaleIff(q, l, p);
    }
  }

  lemma ProductSign(x: real, a: real)
    requires a > 0.0
    ensures x * a > 0.0 <==> x > 0.0
  {
    if x <= 0.0 {
      assert -x * a >= 0.0;
    }
  }

  lemma AbsOfProduct(q: real, l: real)
    requires l != 0.0
    ensures Abs(q * l) == Abs(q) * Abs(l)
  {
    if l > 0.0 {
      ProductSign(q, l);
      ProductSign(-q, l);
    } else {
      ProductSign(q, -l);
      ProductSign(-q, -l);
      assert q * -l == -(q * l) && -q * -l == q * l;
    }
  }

  lemma ScaleIff(q: real, l: real, p: real)
    requires l != 0.0
    ensures (q * 100.0 > p || q * 100.0 < -p) <==> 100.0 * Abs(q * l) > p * Abs(l)
  {
    AbsOfProduct(q, l);
    ProductSign(100.0 * Abs(q) - p, Abs(l));
    assert (100.0 * Abs(q) - p) * Abs(l) == 100.0 * (Abs(q) * Abs(l)) - p * Abs(l);
  }
}
