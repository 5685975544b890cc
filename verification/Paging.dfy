/** QueryMetrics: a time-ordered window of one device and metric, read page by page. */
module Paging {
  import opened Common

  /** What one stored point shows besides its key. */
  datatype Reading = Reading(value: real, status: string)

  /** The rows of one device and metric, by time, which the primary key makes unique. */
  type Series = map<Micros, Reading>

  datatype Row = Row(time: Micros, reading: Reading)

  const MAX_LIMIT: int := 10000

  /** Go's conversion to int32. */
  function Int32(n: int): int {
    (n + 0x8000_0000) % 0x1_0000_0000 - 0x8000_0000
  }

  // ---------- the window ----------

  function InWindow(t: Series, from: Micros, to: Micros): Series {
    map k | k in t && from <= k <= to :: t[k]
  }

  ghost predicate Ordered(rows: seq<Row>, ascending: bool) {
    forall i, j :: 0 <= i < j < |rows| ==> if ascending then rows[i].time < rows[j].time else rows[j].time < rows[i].time
  }

  predicate Has(rows: seq<Row>, k: Micros) {
    exists i :: 0 <= i < |rows| && rows[i].time == k
  }

  /** `rows` lists exactly the rows of `t`, in time order. */
  ghost predicate Lists(rows: seq<Row>, t: Series, ascending: bool) {
    && Ordered(rows, ascending)
    && (forall i :: 0 <= i < |rows| ==> rows[i].time in t && t[rows[i].time] == rows[i].reading)
    && (forall k :: k in t ==> Has(rows, k))
  }

  /** Nothing in the table comes before the head of its list. */
  lemma HeadIsFirst(a: seq<Row>, t: Series, ascending: bool, k: Micros)
    requires Lists(a, t, ascending) && k in t
    ensures a != [] && (if ascending then a[0].time <= k else k <= a[0].time)
  {
    assert Has(a, k);
  }

  lemma ListsTail(a: seq<Row>, t: Series, ascending: bool)
    requires a != [] && Lists(a, t, ascending)
    ensures Lists(a[1..], t - {a[0].time}, ascending)
  {
    forall k | k in t - {a[0].time} ensures Has(a[1..], k) {
      assert Has(a, k);
      var i :| 0 <= i < |a| && a[i].time == k;
      assert a[1..][i - 1].time == k;
    }
  }

  lemma {:induction false} ListingCounts(a: seq<Row>, t: Series, ascending: bool)
    requires Lists(a, t, ascending)
    ensures |a| == |t|
  {
    if a == [] {
      assert forall k :: k in t ==> Has(a, k);
      assert forall k :: k !in t.Keys;
      assert t.Keys == {};
    } else {
      ListsTail(a, t, ascending);
      ListingCounts(a[1..], t - {a[0].time}, ascending);
      assert t.Keys == (t - {a[0].time}).Keys + {a[0].time};
      assert |t.Keys| == |(t - {a[0].time}).Keys| + 1;
    }
  }

  /** There is only one such list, and it has as many rows as the count query reports. */
  lemma {:induction false} ListingUnique(a: seq<Row>, b: seq<Row>, t: Series, ascending: bool)
    requires Lists(a, t, ascending) && Lists(b, t, ascending)
    ensures a == b && |a| == |t|
    decreases |a|
  {
    ListingCounts(a, t, ascending);
    ListingCounts(b, t, ascending);
    if a != [] {
      HeadIsFirst(a, t, ascending, b[0].time);
      HeadIsFirst(b, t, ascending, a[0].time);
      ListsTail(a, t, ascending);
      ListsTail(b, t, ascending);
      ListingUnique(a[1..], b[1..], t - {a[0].time}, ascending);
      assert a == [a[0]] + a[1..] && b == [b[0]] + b[1..];
    }
  }

  // ---------- one page ----------

  datatype Response = Response(row: Row, hasMore: bool, total: int)

  /** The handler refuses bad arguments; a negative offset is left to the database layer. */
  datatype Reply = InvalidArgument | QueryFailed | Streamed(responses: seq<Response>)

  /** ORDER BY time LIMIT limit OFFSET offset, on the ordered window. */
  function Page(window: seq<Row>, offset: nat, limit: nat): seq<Row> {
    var lo := if offset < |window| then offset else |window|;
    var hi := if offset + limit < |window| then offset + limit else |window|;
    window[lo..hi]
  }

  function HasMore(offset: int, limit: int, total: int): bool {
    Int32(offset + limit) < Int32(total)
  }

  /** A page of the window: refused by the database layer, or streamed row by row. */
  function Answer(window: seq<Row>, offset: int, limit: int): Reply
    requires 0 < limit <= MAX_LIMIT
  {
    if offset < 0 then QueryFailed
    else
      var page := Page(window, offset, limit);
      Streamed(seq(|page|, i requires 0 <= i < |page| => Response(page[i], HasMore(offset, limit, |window|), |window|)))
  }

  // ---------- requests ----------

  datatype Request = Request(device: string, metric: string, start: Bound, end: Bound, limit: int, offset: int, ascending: bool)

  const DAY: Micros := 24 * 60 * 60 * SECOND

  function EffectiveLimit(limit: int): int {
    if limit == 0 then 100 else limit
  }

  predicate ValidRequest(req: Request) {
    && req.device != "" && req.metric != ""
    && (IsZero(req.start) || IsZero(req.end) || req.start.t <= req.end.t)
    && 0 < EffectiveLimit(req.limit) <= MAX_LIMIT
  }

  /** The time range a request is answered for: the last day by default, up to `now` without an end. */
  function Until(req: Request, now: Micros): Micros {
    if IsZero(req.end) then now else req.end.t
  }

  function From(req: Request, now: Micros): Micros {
    if IsZero(req.start) then Until(req, now) - DAY else req.start.t
  }

  /** What the handler answers, for the database's list of the window and whether its two queries go through. */
  function Respond(req: Request, now: Micros, window: seq<Row>, rowsOk: bool, countOk: bool): Reply {
    if !ValidRequest(req) then InvalidArgument
    else if Until(req, now) < From(req, now) || !rowsOk || !countOk then QueryFailed
    else Answer(window, req.offset, EffectiveLimit(req.limit))
  }

  /** The loop over the rows of a page. */
  method Send(window: seq<Row>, points: seq<Row>, offset: int, limit: int) returns (sent: seq<Response>)
    ensures |sent| == |points|
    ensures forall k :: 0 <= k < |sent| ==> sent[k] == Response(points[k], HasMore(offset, limit, |window|), |window|)
  {
    var totalCount := |window|;
    sent := [];
    for i := 0 to |points|
      invariant |sent| == i
      invariant forall k :: 0 <= k < i ==> sent[k] == Response(points[k], HasMore(offset, limit, |window|), |window|)
    {
      sent := sent + [Response(points[i], Int32(offset + limit) < Int32(totalCount), totalCount)];
    }
  }

  /** The rows of a page are stored rows of the time range. */
  lemma PageIsStored(t: Series, from: Micros, to: Micros, ascending: bool, window: seq<Row>, offset: nat, limit: nat, i: nat)
    requires Lists(window, InWindow(t, from, to), ascending) && i < |Page(window, offset, limit)|
    ensures var row := Page(window, offset, limit)[i]; row.time in t && t[row.time] == row.reading && from <= row.time <= to
  {
    assert Page(window, offset, limit)[i] == window[offset + i];
  }

  method QueryMetrics(req: Request, now: Micros, t: Series, window: seq<Row>, rowsOk: bool, countOk: bool) returns (reply: Reply)
    requires Lists(window, InWindow(t, From(req, now), Until(req, now)), req.ascending)
    ensures reply == Respond(req, now, window, rowsOk, countOk)
    ensures reply.Streamed? ==> forall i :: 0 <= i < |reply.responses| ==>
      var row := reply.responses[i].row; row.time in t && t[row.time] == row.reading && From(req, now) <= row.time <= Until(req, now)
  {
    var limit := req.limit;
    if limit == 0 {
      limit := 100;
    }
    if req.device == "" || req.metric == "" {
      return InvalidArgument;
    }
    if !IsZero(req.start) && !IsZero(req.end) && req.end.t < req.start.t {
      return InvalidArgument;
    }
    if limit <= 0 || limit > MAX_LIMIT {
      return InvalidArgument;
    }
    var start, end := From(req, now), Until(req, now);
    if end < start || req.offset < 0 || !rowsOk {
      return QueryFailed;
    }
    if !countOk {
      return QueryFailed;
    }
    var points := Page(window, req.offset, limit);
    var sent := Send(window, points, req.offset, limit);
    forall i | 0 <= i < |points| ensures points[i].time in t && t[points[i].time] == points[i].reading && start <= points[i].time <= end {
      PageIsStored(t, start, end, req.ascending, window, req.offset, limit, i);
    }
    reply := Streamed(sent);
  }

  /** The time range a request is answered for: the 24 hours before its end, or before now, unless it has a start;
      up to now unless it has an end. */
  lemma RangeIs(req: Request, now: Micros)
    ensures IsZero(req.start) && IsZero(req.end) ==> From(req, now) == now - 86_400_000_000 && Until(req, now) == now
    ensures IsZero(req.start) && !IsZero(req.end) ==> From(req, now) == req.end.t - 86_400_000_000 && Until(req, now) == req.end.t
    ensures !IsZero(req.start) && IsZero(req.end) ==> From(req, now) == req.start.t && Until(req, now) == now
    ensures !IsZero(req.start) && !IsZero(req.end) ==> From(req, now) == req.start.t && Until(req, now) == req.end.t
  {
  }

  /** Which requests are refused, which fail, and what a page holds: the rows of the window from the offset on, at
      most as many as the limit, 100 when it is zero, each with the size of the window. */
  lemma RespondIs(req: Request, now: Micros, window: seq<Row>, rowsOk: bool, countOk: bool)
    ensures var r := Respond(req, now, window, rowsOk, countOk);
      var limit := if req.limit == 0 then 100 else req.limit;
      var refused := req.device == "" || req.metric == "" || limit < 0 || limit > 10_000
        || (!IsZero(req.start) && !IsZero(req.end) && req.end.t < req.start.t);
      && (r.InvalidArgument? <==> refused)
      && (r.QueryFailed? <==> !refused && (req.offset < 0 || Until(req, now) < From(req, now) || !rowsOk || !countOk))
      && (r.Streamed? ==>
            && |r.responses| == (if req.offset >= |window| then 0 else if req.offset + limit <= |window| then limit else |window| - req.offset)
            && forall i :: 0 <= i < |r.responses| ==> r.responses[i].row == window[req.offset + i] && r.responses[i].total == |window|)
  {
  }

  // ---------- walking the pages ----------

  /** What a client that follows HasMore has collected: the rows, the number of pages, and whether
      the last request was refused. */
  datatype Walked = Walked(rows: seq<Row>, pages: nat, refused: bool)

  function Rows(rs: seq<Response>): seq<Row> {
    seq(|rs|, i requires 0 <= i < |rs| => rs[i].row)
  }

  /** Follow HasMore from `offset`; the offset field of the request is an int32, and its sums wrap. */
  function WalkFrom(window: seq<Row>, offset: int, limit: int): Walked
    requires 0 < limit <= MAX_LIMIT && offset < 0x8000_0000
    decreases if offset < 0 then 0 else 0x8000_0000 - offset
  {
    match Answer(window, offset, limit)
    case InvalidArgument => Walked([], 0, true)
    case QueryFailed => Walked([], 0, true)
    case Streamed(rs) =>
      if rs == [] || !rs[|rs| - 1].hasMore then Walked(Rows(rs), 1, false)
      else
        var rest := WalkFrom(window, Int32(offset + limit), limit);
        Walked(Rows(rs) + rest.rows, 1 + rest.pages, rest.refused)
  }

  /** The number of pages a window of `total` rows has. */
  function PageCount(total: nat, limit: nat): nat
    requires limit > 0
  {
    (total + limit - 1) / limit
  }

  predicate Complete(window: seq<Row>, limit: nat)
    requires 0 < limit <= MAX_LIMIT
  {
    WalkFrom(window, 0, limit) == Walked(window, if window == [] then 1 else PageCount(|window|, limit), false)
  }

  lemma Int32Same(n: int)
    requires -0x8000_0000 <= n < 0x8000_0000
    ensures Int32(n) == n
  {
  }

  lemma PageRows(window: seq<Row>, offset: nat, limit: nat)
    requires 0 < limit <= MAX_LIMIT && offset < |window|
    ensures Answer(window, offset, limit).Streamed?
    ensures var rs := Answer(window, offset, limit).responses;
      && Rows(rs) == Page(window, offset, limit) && rs != []
      && rs[|rs| - 1].hasMore == HasMore(offset, limit, |window|)
  {
  }

  /** The rows of `n` full pages. */
  function Span(limit: nat, n: nat): nat {
    if n == 0 then 0 else Span(limit, n - 1) + limit
  }

  lemma {:induction false} SpanIsProduct(limit: nat, n: nat)
    ensures Span(limit, n) == n * limit
  {
    if n > 0 {
      SpanIsProduct(limit, n - 1);
      assert n * limit == (n - 1) * limit + limit;
    }
  }

  /** `n` more pages cover the rows from `offset` on. */
  predicate Covers(total: nat, offset: nat, limit: nat, n: nat) {
    n > 0 && Span(limit, n - 1) < total - offset <= Span(limit, n)
  }

  /** The last page ends the walk. */
  lemma LastPage(window: seq<Row>, offset: nat, limit: nat)
    requires 0 < limit <= MAX_LIMIT && offset < |window| <= offset + limit < 0x8000_0000
    ensures WalkFrom(window, offset, limit) == Walked(window[offset..], 1, false)
  {
    PageRows(window, offset, limit);
    Int32Same(offset + limit);
    Int32Same(|window|);
  }

  /** An earlier page goes on with the next offset, wrapped. */
  lemma EarlierPage(window: seq<Row>, offset: nat, limit: nat)
    requires 0 < limit <= MAX_LIMIT && offset < 0x8000_0000 && offset < |window| < 0x8000_0000
    requires Int32(offset + limit) < |window| && offset + limit < |window| + 0x8000_0000
    ensures Int32(offset + limit) < 0x8000_0000
    ensures var rest := WalkFrom(window, Int32(offset + limit), limit);
      WalkFrom(window, offset, limit) == Walked(Page(window, offset, limit) + rest.rows, 1 + rest.pages, rest.refused)
  {
    PageRows(window, offset, limit);
    Int32Same(|window|);
  }

  lemma PageAndRest(window: seq<Row>, offset: nat, limit: nat)
    requires offset + limit <= |window|
    ensures Page(window, offset, limit) + window[offset + limit..] == window[offset..]
  {
  }

  lemma {:induction false} WalkReadsRest(window: seq<Row>, offset: nat, limit: nat, n: nat)
    requires 0 < limit <= MAX_LIMIT && Covers(|window|, offset, limit, n) && offset + Span(limit, n) < 0x8000_0000
    ensures offset < 0x8000_0000 && offset < |window|
    ensures WalkFrom(window, offset, limit) == Walked(window[offset..], n, false)
    decreases n
  {
    if n == 1 {
      assert Span(limit, 1) == limit;
      LastPage(window, offset, limit);
    } else {
      Int32Same(offset + limit);
      EarlierPage(window, offset, limit);
      WalkReadsRest(window, offset + limit, limit, n - 1);
      PageAndRest(window, offset, limit);
    }
  }

  lemma {:induction false} WalkIsRefused(window: seq<Row>, offset: nat, limit: nat, n: nat)
    requires 0 < limit <= MAX_LIMIT && Covers(|window|, offset, limit, n)
    requires |window| < 0x8000_0000 && offset + Span(limit, n) >= 0x8000_0000
    ensures offset < 0x8000_0000 && WalkFrom(window, offset, limit).refused
    decreases n
  {
    if n == 1 {
      assert Span(limit, 1) == limit;
      WrapsNegative(offset, limit);
      EarlierPage(window, offset, limit);
    } else {
      Int32Same(offset + limit);
      EarlierPage(window, offset, limit);
      WalkIsRefused(window, offset + limit, limit, n - 1);
    }
  }

  lemma WrapsNegative(offset: int, limit: int)
    requires 0 < limit <= MAX_LIMIT && offset < 0x8000_0000 <= offset + limit
    ensures Int32(offset + limit) < 0
  {
  }

  lemma {:induction false} WalkIsBounded(window: seq<Row>, offset: int, limit: int)
    requires 0 < limit <= MAX_LIMIT && offset < 0x8000_0000
    ensures |WalkFrom(window, offset, limit).rows| <= if offset < 0 then 0 else 0x8000_0000 + limit - offset
    decreases if offset < 0 then 0 else 0x8000_0000 - offset
  {
    if offset >= 0 {
      if offset + limit < 0x8000_0000 {
        Int32Same(offset + limit);
        WalkIsBounded(window, offset + limit, limit);
      } else {
        WrapsNegative(offset, limit);
      }
    }
  }

  /** A window too long for an int32 count is never read to its end. */
  lemma LongWindowIsCut(window: seq<Row>, limit: nat)
    requires 0 < limit <= MAX_LIMIT && |window| >= 0x8000_0000
    ensures WalkFrom(window, 0, limit).rows != window
  {
    if |window| <= 0x8000_0000 + limit {
      PageRows(window, 0, limit);
      Int32Same(limit);
      assert Int32(|window|) < 0;
    } else {
      WalkIsBounded(window, 0, limit);
    }
  }

  lemma PagesCover(total: nat, limit: nat)
    requires 0 < limit && 0 < total
    ensures Covers(total, 0, limit, PageCount(total, limit))
    ensures PageCount(total, limit) * limit == Span(limit, PageCount(total, limit)) >= total
  {
    var n := PageCount(total, limit);
    var r := (total + limit - 1) % limit;
    assert total + limit - 1 == n * limit + r;
    SpanIsProduct(limit, n);
    assert n > 0 by {
      assert n * limit > 0;
    }
  }

  /** Following HasMore from offset 0 reads the whole window, in order, without gaps or repeats, in
      ceil(total/limit) pages, exactly when the end of the last page fits an int32. */
  lemma WalkCompleteIff(window: seq<Row>, limit: nat)
    requires 0 < limit <= MAX_LIMIT
    ensures Complete(window, limit) <==> PageCount(|window|, limit) * limit < 0x8000_0000
  {
    var total := |window|;
    if total == 0 {
      assert (limit - 1) / limit == 0;
      assert Rows([]) == [];
    } else {
      var n := PageCount(total, limit);
      PagesCover(total, limit);
      if total >= 0x8000_0000 {
        LongWindowIsCut(window, limit);
      } else if Span(limit, n) < 0x8000_0000 {
        WalkReadsRest(window, 0, limit, n);
      } else {
        WalkIsRefused(window, 0, limit, n);
      }
    }
  }

  /** For an unchanging series whose last page ends below 2^31: whatever list the database orders the
      window into, the walk returns it, and it is every row of the window once. */
  lemma WalkReadsSeries(t: Series, from: Micros, to: Micros, ascending: bool, window: seq<Row>, limit: nat)
    requires 0 < limit <= MAX_LIMIT && Lists(window, InWindow(t, from, to), ascending)
    requires PageCount(|InWindow(t, from, to)|, limit) * limit < 0x8000_0000
    ensures var w := WalkFrom(window, 0, limit);
      && !w.refused && Ordered(w.rows, ascending) && |w.rows| == |InWindow(t, from, to)|
      && (forall k :: Has(w.rows, k) <==> k in t && from <= k <= to)
      && (forall i :: 0 <= i < |w.rows| ==> w.rows[i].time in t && w.rows[i].reading == t[w.rows[i].time])
  {
    ListingCounts(window, InWindow(t, from, to), ascending);
    WalkCompleteIff(window, limit);
  }
}
