/** The formatted string keys of Redis and of the evaluator's history, and what they distinguish. */
module Keys {
  import opened Text

  /** One more field of a key: "...:%s" */
  function Field(prefix: string, value: string): string {
    prefix + [':'] + value
  }

  /** "dedup:%s:%d" */
  function DedupKey(device: string, second: int): string {
    Field(Field("dedup", device), Decimal(second))
  }

  /** The key of the last value seen by the alert evaluator: "%s:%s" */
  function LastValueKey(device: string, metric: string): string {
    Field(device, metric)
  }

  /** What a cached aggregation is looked up by. Window and aggregation names come from enumerations. */
  datatype AggQuery = AggQuery(device: string, metric: string, window: string, start: int, end: int, aggs: seq<string>)

  /** Enumeration names: no spaces, no colons, not empty. */
  ghost predicate Enumerated(q: AggQuery) {
    && ':' !in q.window && Words(q.aggs, ' ') && Words(q.aggs, ':')
  }

  /** The key of a list of words as %v prints it. */
  function Bracket(words: seq<string>): string {
    "[" + Join(words, ' ') + "]"
  }

  /** "agg:%s:%s:%s:%d:%d:%v" */
  function AggKey(q: AggQuery): string {
    Field(Field(Field(Field(Field(Field("agg", q.device), q.metric), q.window), Decimal(q.start)), Decimal(q.end)), Bracket(q.aggs))
  }

  /** Claims are distinguished by device and second, whatever the device is called. */
  lemma DedupKeyInjective(device: string, second: int, device': string, second': int)
    ensures DedupKey(device, second) == DedupKey(device', second') <==> device == device' && second == second'
  {
    if DedupKey(device, second) == DedupKey(device', second') {
      DecimalIsColonFree(second);
      DecimalIsColonFree(second');
      LastSeparator(Field("dedup", device), Decimal(second), Field("dedup", device'), Decimal(second'), ':');
      DecimalInjective(second, second');
      assert Field("dedup", device)[6..] == device && Field("dedup", device')[6..] == device';
    }
  }

  lemma BracketInjective(a: seq<string>, b: seq<string>)
    requires Words(a, ' ') && Words(b, ' ') && Bracket(a) == Bracket(b)
    ensures a == b
  {
    var s, t := Join(a, ' '), Join(b, ' ');
    assert Bracket(a)[1..|s| + 1] == s && Bracket(b)[1..|t| + 1] == t;
    JoinInjective(a, b, ' ');
  }

  lemma BracketIsColonFree(words: seq<string>)
    requires Words(words, ':')
    ensures ':' !in Bracket(words)
  {
    JoinWithout(words, ' ', ':');
  }

  /** A numeric field at the end of a key is read back. */
  lemma NumberField(x: string, n: int, x': string, n': int)
    requires Field(x, Decimal(n)) == Field(x', Decimal(n'))
    ensures x == x' && n == n'
  {
    DecimalIsColonFree(n);
    DecimalIsColonFree(n');
    LastSeparator(x, Decimal(n), x', Decimal(n'), ':');
    DecimalInjective(n, n');
  }

  lemma NamesField(device: string, metric: string)
    ensures Field(Field("agg", device), metric) == "agg:" + LastValueKey(device, metric)
  {
  }

  /** Two queries share a key exactly when everything but the split between device and metric agrees. */
  lemma SameAggKey(q: AggQuery, q': AggQuery)
    requires Enumerated(q) && Enumerated(q')
    ensures AggKey(q) == AggKey(q') <==>
      LastValueKey(q.device, q.metric) == LastValueKey(q'.device, q'.metric)
      && q.window == q'.window && q.start == q'.start && q.end == q'.end && q.aggs == q'.aggs
  {
    var n, n' := Field(Field("agg", q.device), q.metric), Field(Field("agg", q'.device), q'.metric);
    NamesField(q.device, q.metric);
    NamesField(q'.device, q'.metric);
    assert n[4..] == LastValueKey(q.device, q.metric) && n'[4..] == LastValueKey(q'.device, q'.metric);
    if AggKey(q) == AggKey(q') {
      var w, w' := Field(n, q.window), Field(n', q'.window);
      var b, b' := Field(w, Decimal(q.start)), Field(w', Decimal(q'.start));
      var e, e' := Field(b, Decimal(q.end)), Field(b', Decimal(q'.end));
      BracketIsColonFree(q.aggs);
      BracketIsColonFree(q'.aggs);
      LastSeparator(e, Bracket(q.aggs), e', Bracket(q'.aggs), ':');
      BracketInjective(q.aggs, q'.aggs);
      NumberField(b, q.end, b', q'.end);
      NumberField(w, q.start, w', q'.start);
      LastSeparator(n, q.window, n', q'.window, ':');
    }
  }

  /** A device and metric no other pair of non-empty names is confused with. */
  ghost predicate Unambiguous(device: string, metric: string) {
    forall d, m :: d != "" && m != "" && LastValueKey(d, m) == LastValueKey(device, metric) ==> d == device && m == metric
  }

  /** Names are kept apart exactly when a colon stands nowhere but at the very beginning of the device
      or at the very end of the metric; in particular when there is none. */
  lemma UnambiguousIff(device: string, metric: string)
    requires device != "" && metric != ""
    ensures Unambiguous(device, metric) <==> ':' !in device[1..] && ':' !in metric[..|metric| - 1]
  {
    var k := LastValueKey(device, metric);
    if ':' in device[1..] {
      var i :| 1 <= i < |device| && device[i] == ':';
      assert device[..i] + ":" + (device[i + 1..] + ":" + metric) == k;
      assert LastValueKey(device[..i], device[i + 1..] + ":" + metric) == k;
      assert |device[..i]| != |device|;
    } else if ':' in metric[..|metric| - 1] {
      var i :| 0 <= i < |metric| - 1 && metric[i] == ':';
      assert device + ":" + metric[..i] + ":" + metric[i + 1..] == k;
      assert LastValueKey(device + ":" + metric[..i], metric[i + 1..]) == k;
      assert |metric[i + 1..]| != |metric|;
    } else {
      assert forall i :: 1 <= i < |device| ==> device[i] == device[1..][i - 1];
      assert forall i :: 0 <= i < |metric| - 1 ==> metric[i] == metric[..|metric| - 1][i];
      assert forall i :: 0 <= i < |device| ==> k[i] == device[i];
      assert forall i :: 0 <= i < |metric| ==> k[|device| + 1 + i] == metric[i];
      forall d, m | d != "" && m != "" && LastValueKey(d, m) == k ensures d == device && m == metric {
        assert k[|d|] == ':';
        assert |d| <= |device|;
        assert d == LastValueKey(d, m)[..|d|] && device == k[..|device|];
        assert m == LastValueKey(d, m)[|d| + 1..] && metric == k[|device| + 1..];
      }
    }
  }
}
