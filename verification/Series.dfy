/** The public price series: highs and lows followed in one pass over the snapshots, and
    at most 240 points that keep them.
  */
module Series {
  import opened Options

  const POINT_LIMIT: nat := 240

  /** A snapshot; a price is missing when that side of the book was empty. */
  datatype Row = Row(id: int, observedAt: int, buy: Option<int>, sell: Option<int>)

  datatype Side = Buy | Sell

  function Price(row: Row, side: Side): Option<int>
  {
    if side == Buy then row.buy else row.sell
  }

  datatype Candidate = Candidate(value: int, observedAt: int, rowIndex: nat)

  /** `_series_candidate`. */
  function CandidateOf(row: Row, side: Side, rowIndex: nat): Option<Candidate>
  {
    match Price(row, side)
    case None => None
    case Some(value) => Some(Candidate(value, row.observedAt, rowIndex))
  }

  datatype Stats = Stats(first: Option<Candidate>, current: Option<Candidate>, lastValid: Option<Candidate>,
                         high: Option<Candidate>, low: Option<Candidate>)

  /** `r` is the earliest of the candidates that no other one exceeds. */
  ghost predicate IsHigh(r: Option<Candidate>, series: seq<Option<Candidate>>)
  {
    match r
    case None => forall i :: 0 <= i < |series| ==> series[i] == None
    case Some(c) =>
      exists i :: 0 <= i < |series| && series[i] == r &&
        forall j :: 0 <= j < |series| && series[j].Some? ==>
          series[j].value.value <= c.value && (j < i ==> series[j].value.value < c.value)
  }

  ghost predicate IsLow(r: Option<Candidate>, series: seq<Option<Candidate>>)
  {
    match r
    case None => forall i :: 0 <= i < |series| ==> series[i] == None
    case Some(c) =>
      exists i :: 0 <= i < |series| && series[i] == r &&
        forall j :: 0 <= j < |series| && series[j].Some? ==>
          series[j].value.value >= c.value && (j < i ==> series[j].value.value > c.value)
  }

  ghost predicate IsFirst(r: Option<Candidate>, series: seq<Option<Candidate>>)
  {
    if r == None then forall i :: 0 <= i < |series| ==> series[i] == None
    else exists i :: 0 <= i < |series| && series[i] == r && forall j :: 0 <= j < i ==> series[j] == None
  }

  ghost predicate IsLastValid(r: Option<Candidate>, series: seq<Option<Candidate>>)
  {
    if r == None then forall i :: 0 <= i < |series| ==> series[i] == None
    else exists i :: 0 <= i < |series| && series[i] == r && forall j :: i < j < |series| ==> series[j] == None
  }

  /** The statistics are those of the whole series. */
  ghost predicate Summarises(s: Stats, series: seq<Option<Candidate>>)
  {
    && s.current == (if series == [] then None else series[|series| - 1])
    && IsFirst(s.first, series) && IsLastValid(s.lastValid, series)
    && IsHigh(s.high, series) && IsLow(s.low, series)
  }

  /** Higher than everything before. */
  predicate Exceeds(c: Option<Candidate>, series: seq<Option<Candidate>>)
  {
    c.Some? && forall j :: 0 <= j < |series| && series[j].Some? ==> series[j].value.value < c.value.value
  }

  predicate FallsBelow(c: Option<Candidate>, series: seq<Option<Candidate>>)
  {
    c.Some? && forall j :: 0 <= j < |series| && series[j].Some? ==> series[j].value.value > c.value.value
  }

  lemma HighChanges(high: Option<Candidate>, series: seq<Option<Candidate>>, c: Option<Candidate>)
    requires IsHigh(high, series)
    ensures Exceeds(c, series) <==> c.Some? && (high.None? || c.value.value > high.value.value)
  {
  }

  lemma LowChanges(low: Option<Candidate>, series: seq<Option<Candidate>>, c: Option<Candidate>)
    requires IsLow(low, series)
    ensures FallsBelow(c, series) <==> c.Some? && (low.None? || c.value.value < low.value.value)
  {
  }

  class SeriesState {
    var first: Option<Candidate>
    var current: Option<Candidate>
    var lastValid: Option<Candidate>
    var high: Option<Candidate>
    var low: Option<Candidate>

    constructor ()
      ensures Summarises(Value(), []) && high == low == None
    {
      first, current, lastValid, high, low := None, None, None, None, None;
    }

    function Value(): Stats
      reads this
    {
      Stats(first, current, lastValid, high, low)
    }

    /** `_update_series_state`. */
    method Update(candidate: Option<Candidate>, ghost series: seq<Option<Candidate>>)
      requires Summarises(Value(), series)
      modifies this
      ensures Summarises(Value(), series + [candidate])
      ensures high != old(high) <==> Exceeds(candidate, series)
      ensures low != old(low) <==> FallsBelow(candidate, series)
      ensures high == old(high) || high == candidate
      ensures low == old(low) || low == candidate
    {
      hide IsFirst, IsLastValid, IsHigh, IsLow, Exceeds, FallsBelow;
      HighChanges(high, series, candidate);
      LowChanges(low, series, candidate);
      NextFirst(first, series, candidate);
      NextLast(lastValid, series, candidate);
      NextHigh(high, series, candidate);
      NextLow(low, series, candidate);
      current := candidate;
      if candidate.None? {
        return;
      }
      if first.None? {
        first := candidate;
      }
      lastValid := candidate;
      if high.None? || candidate.value.value > high.value.value {
        high := candidate;
      }
      if low.None? || candidate.value.value < low.value.value {
        low := candidate;
      }
    }
  }

  lemma NextFirst(before: Option<Candidate>, series: seq<Option<Candidate>>, candidate: Option<Candidate>)
    requires IsFirst(before, series)
    ensures IsFirst(if before.None? then candidate else before, series + [candidate])
  {
    var next := series + [candidate];
    assert next[|series|] == candidate;
    if before.Some? {
      var i :| 0 <= i < |series| && series[i] == before && forall j :: 0 <= j < i ==> series[j] == None;
      assert next[i] == before;
    }
  }

  lemma NextLast(before: Option<Candidate>, series: seq<Option<Candidate>>, candidate: Option<Candidate>)
    requires IsLastValid(before, series)
    ensures IsLastValid(if candidate.None? then before else candidate, series + [candidate])
  {
    var next := series + [candidate];
    assert next[|series|] == candidate;
    if before.Some? {
      var i :| 0 <= i < |series| && series[i] == before && forall j :: i < j < |series| ==> series[j] == None;
      assert next[i] == before;
    }
  }

  lemma NextHigh(before: Option<Candidate>, series: seq<Option<Candidate>>, candidate: Option<Candidate>)
    requires IsHigh(before, series)
    ensures IsHigh(if candidate.Some? && (before.None? || candidate.value.value > before.value.value)
                   then candidate else before, series + [candidate])
  {
    var next := series + [candidate];
    assert next[|series|] == candidate;
    if before.Some? {
      var i :| 0 <= i < |series| && series[i] == before && forall j :: 0 <= j < |series| && series[j].Some? ==>
        series[j].value.value <= before.value.value && (j < i ==> series[j].value.value < before.value.value);
      assert next[i] == before;
    }
  }

  lemma NextLow(before: Option<Candidate>, series: seq<Option<Candidate>>, candidate: Option<Candidate>)
    requires IsLow(before, series)
    ensures IsLow(if candidate.Some? && (before.None? || candidate.value.value < before.value.value)
                  then candidate else before, series + [candidate])
  {
    var next := series + [candidate];
    assert next[|series|] == candidate;
    if before.Some? {
      var i :| 0 <= i < |series| && series[i] == before && forall j :: 0 <= j < |series| && series[j].Some? ==>
        series[j].value.value >= before.value.value && (j < i ==> series[j].value.value > before.value.value);
      assert next[i] == before;
    }
  }

  // ----- The rows -----

  /** The rows of the selected window. */
  function Window(rows: seq<Row>, cutoff: int): (w: seq<Row>)
    ensures |w| <= |rows|
  {
    if rows == [] then []
    else
      var last := rows[|rows| - 1];
      Window(rows[..|rows| - 1], cutoff) + if last.observedAt >= cutoff then [last] else []
  }

  /** Rows come in the order of their times, so the window is their end from the cutoff on. */
  lemma {:induction false} WindowIsSuffix(rows: seq<Row>, cutoff: int) returns (k: nat)
    requires forall i, j :: 0 <= i < j < |rows| ==> rows[i].observedAt <= rows[j].observedAt
    ensures k <= |rows| && Window(rows, cutoff) == rows[k..]
    ensures forall i :: 0 <= i < |rows| ==> (rows[i].observedAt >= cutoff <==> i >= k)
    decreases |rows|
  {
    if rows == [] {
      k := 0;
    } else {
      var last := |rows| - 1;
      var before := rows[..last];
      k := WindowIsSuffix(before, cutoff);
      forall i | 0 <= i < last ensures rows[i].observedAt >= cutoff <==> i >= k {
        assert rows[i] == before[i];
      }
      if rows[last].observedAt >= cutoff {
        assert rows[k..] == before[k..] + [rows[last]];
      } else if k < last {
        assert false;
      } else {
        assert before[k..] == [] && rows[|rows|..] == [];
        k := |rows|;
      }
    }
  }

  /** The candidates of one side, one for each row of the window. */
  function WindowSeries(w: seq<Row>, side: Side): (s: seq<Option<Candidate>>)
    ensures |s| == |w| && forall i :: 0 <= i < |w| ==> s[i] == CandidateOf(w[i], side, i)
  {
    seq(|w|, i requires 0 <= i < |w| => CandidateOf(w[i], side, i))
  }

  /** The candidates of one side over all rows of the month. */
  function MonthSeries(rows: seq<Row>, cutoff: int, side: Side): (s: seq<Option<Candidate>>)
    ensures |s| == |rows|
  {
    if rows == [] then []
    else
      var before := rows[..|rows| - 1];
      MonthSeries(before, cutoff, side) + [CandidateOf(rows[|rows| - 1], side, |Window(before, cutoff)|)]
  }

  lemma {:induction false} MonthSeriesPrices(rows: seq<Row>, cutoff: int, side: Side, i: nat)
    requires i < |rows|
    ensures MonthSeries(rows, cutoff, side)[i].Some? <==> Price(rows[i], side).Some?
    ensures Price(rows[i], side).Some? ==>
      MonthSeries(rows, cutoff, side)[i].value.value == Price(rows[i], side).value
  {
    if i < |rows| - 1 {
      MonthSeriesPrices(rows[..|rows| - 1], cutoff, side, i);
    }
  }

  lemma WindowStep(rows: seq<Row>, n: nat, cutoff: int)
    requires n < |rows|
    ensures Window(rows[..n + 1], cutoff)
            == Window(rows[..n], cutoff) + if rows[n].observedAt >= cutoff then [rows[n]] else []
    ensures forall side :: MonthSeries(rows[..n + 1], cutoff, side)
              == MonthSeries(rows[..n], cutoff, side) + [CandidateOf(rows[n], side, |Window(rows[..n], cutoff)|)]
  {
    assert rows[..n + 1][..n] == rows[..n];
  }

  lemma SeriesStep(w: seq<Row>, row: Row, side: Side)
    ensures WindowSeries(w + [row], side) == WindowSeries(w, side) + [CandidateOf(row, side, |w|)]
  {
  }

  /** The row sets a new high or low of its side. */
  predicate SetsRecord(w: seq<Row>, side: Side, i: nat)
    requires i < |w|
  {
    var c, before := CandidateOf(w[i], side, i), WindowSeries(w[..i], side);
    Exceeds(c, before) || FallsBelow(c, before)
  }

  predicate Records(w: seq<Row>, i: nat)
    requires i < |w|
  {
    SetsRecord(w, Buy, i) || SetsRecord(w, Sell, i)
  }

  lemma RecordsBefore(w: seq<Row>, row: Row, i: nat)
    requires i < |w|
    ensures Records(w + [row], i) == Records(w, i)
  {
    assert (w + [row])[..i] == w[..i];
  }

  lemma RecordsNow(w: seq<Row>, row: Row)
    ensures Records(w + [row], |w|) <==>
      || Exceeds(CandidateOf(row, Buy, |w|), WindowSeries(w, Buy))
      || FallsBelow(CandidateOf(row, Buy, |w|), WindowSeries(w, Buy))
      || Exceeds(CandidateOf(row, Sell, |w|), WindowSeries(w, Sell))
      || FallsBelow(CandidateOf(row, Sell, |w|), WindowSeries(w, Sell))
  {
    assert (w + [row])[..|w|] == w;
  }

  // ----- Which rows are shown -----

  /** `count` positions spread evenly, or all of them. */
  function SampleIndexes(count: nat): set<nat>
  {
    if count <= POINT_LIMIT then Below(count) else Spread(POINT_LIMIT, count)
  }

  function Below(n: nat): (s: set<nat>)
    ensures forall i: nat :: i in s <==> i < n
    ensures |s| == n
  {
    if n == 0 then {} else Below(n - 1) + {n - 1}
  }

  /** The k-th of the positions spread evenly. */
  function Position(k: nat, count: nat): nat
    requires count > 0
  {
    k * (count - 1) / (POINT_LIMIT - 1)
  }

  function Spread(n: nat, count: nat): (s: set<nat>)
    requires count > 0
    ensures forall i :: i in s ==> i < count || n > POINT_LIMIT
    ensures |s| <= n
  {
    if n == 0 then {}
    else
      SpreadBound(n - 1, count);
      Spread(n - 1, count) + {Position(n - 1, count)}
  }

  lemma SpreadBound(k: nat, count: nat)
    requires count > 0
    ensures k < POINT_LIMIT ==> Position(k, count) < count
  {
    if k < POINT_LIMIT {
      var rest := POINT_LIMIT - 1 - k;
      assert rest * (count - 1) >= 0;
      assert k * (count - 1) + rest * (count - 1) == (POINT_LIMIT - 1) * (count - 1);
    }
  }

  lemma {:induction false} SpreadMembers(n: nat, count: nat, i: nat)
    requires count > 0
    ensures i in Spread(n, count) <==> exists k: nat :: k < n && i == Position(k, count)
  {
    if n > 0 {
      SpreadMembers(n - 1, count, i);
    }
  }

  /** Exactly these positions are sampled. */
  lemma SampleExactly(count: nat, i: nat)
    ensures count <= 240 ==> (i in SampleIndexes(count) <==> i < count)
    ensures count > 240 ==> (i in SampleIndexes(count) <==> exists k: nat :: k < 240 && i == Position(k, count))
    ensures forall k: nat :: count > 240 ==> Position(k, count) == k * (count - 1) / 239
  {
    if count > 240 {
      SpreadMembers(240, count, i);
    }
  }

  /** The sample always holds the first and the last position. */
  lemma SampleHasEnds(count: nat)
    requires count > 0
    ensures 0 in SampleIndexes(count) && count - 1 in SampleIndexes(count)
    ensures forall i :: i in SampleIndexes(count) ==> i < count
  {
    if count > POINT_LIMIT {
      SpreadHasStart(POINT_LIMIT, count);
      var k := POINT_LIMIT - 1;
      assert Position(k, count) == count - 1;
    }
  }

  lemma {:induction false} SpreadHasStart(n: nat, count: nat)
    requires n > 0 && count > 0
    ensures 0 in Spread(n, count)
  {
    if n > 1 {
      SpreadHasStart(n - 1, count);
    } else {
      assert Position(0, count) == 0;
    }
  }

  /** The members of `s` below `n`, in increasing order. */
  function Ascending(s: set<nat>, n: nat): (r: seq<nat>)
    ensures forall k :: 0 <= k < |r| ==> r[k] in s && r[k] < n
    ensures forall i :: i in s && i < n ==> i in r
    ensures forall j, k :: 0 <= j < k < |r| ==> r[j] < r[k]
  {
    if n == 0 then [] else Ascending(s, n - 1) + if n - 1 in s then [n - 1] else []
  }

  lemma {:induction false} AscendingSize(s: set<nat>, n: nat)
    requires forall i :: i in s ==> i < n
    ensures |Ascending(s, n)| == |s|
  {
    if n == 0 {
      assert s == {};
    } else {
      AscendingSize(s - {n - 1}, n - 1);
      SameBelow(s, n - 1);
      RemoveOne(s, n - 1);
    }
  }

  lemma RemoveOne(s: set<nat>, i: nat)
    ensures |s - {i}| == |s| - if i in s then 1 else 0
  {
    if i !in s {
      assert s - {i} == s;
    }
  }

  lemma {:induction false} SameBelow(s: set<nat>, n: nat)
    ensures Ascending(s - {n}, n) == Ascending(s, n)
  {
    AscendingAgree(s - {n}, s, n);
  }

  lemma {:induction false} AscendingAgree(s: set<nat>, t: set<nat>, n: nat)
    requires forall i :: i < n ==> (i in s <==> i in t)
    ensures Ascending(s, n) == Ascending(t, n)
  {
    if n > 0 {
      AscendingAgree(s, t, n - 1);
    }
  }

  /** The sampled positions are spread evenly: steps between neighbours differ by at most one. */
  lemma SpreadIsEven(k: nat, count: nat)
    requires k + 1 < POINT_LIMIT < count
    ensures var step := Position(k + 1, count) - Position(k, count);
            (count - 1) / (POINT_LIMIT - 1) <= step <= (count - 1) / (POINT_LIMIT - 1) + 1
  {
    assert (k + 1) * (count - 1) == k * (count - 1) + (count - 1);
  }

  /** With more rows than points, the sample has one position for every point. */
  lemma {:induction false} SpreadSize(n: nat, count: nat)
    requires 0 < n <= POINT_LIMIT < count
    ensures |Spread(n, count)| == n
    ensures forall i :: i in Spread(n, count) ==> i <= Position(n - 1, count)
  {
    var last := Position(n - 1, count);
    assert Spread(n, count) == Spread(n - 1, count) + {last};
    if n > 1 {
      SpreadSize(n - 1, count);
      SpreadIsEven(n - 2, count);
      assert last !in Spread(n - 1, count);
    } else {
      assert Spread(0, count) == {};
    }
  }

  // ----- The view -----

  /** The rows kept for some positions of the window. */
  predicate Kept(rows: map<nat, Row>, w: seq<Row>)
  {
    forall i :: i in rows ==> i < |w| && rows[i] == w[i]
  }

  predicate Covered(c: Option<Candidate>, positions: set<nat>)
  {
    c.Some? ==> c.value.rowIndex in positions
  }

  /** The positions include the rows of a side's high and low. */
  predicate Covers(positions: set<nat>, s: Stats)
  {
    Covered(s.high, positions) && Covered(s.low, positions)
  }

  /** One row of the window: a row that changes a high or a low is kept. */
  method Observe(buys: SeriesState, sells: SeriesState, special: map<nat, Row>, snapshot: Row, rowIndex: nat,
      ghost w: seq<Row>)
    returns (specialRows: map<nat, Row>)
    requires buys != sells && rowIndex == |w| && Kept(special, w)
    requires Covers(special.Keys, buys.Value()) && Covers(special.Keys, sells.Value())
    requires forall i: nat :: i in special <==> i < |w| && Records(w, i)
    requires Summarises(buys.Value(), WindowSeries(w, Buy)) && Summarises(sells.Value(), WindowSeries(w, Sell))
    modifies buys, sells
    ensures Kept(specialRows, w + [snapshot])
    ensures Covers(specialRows.Keys, buys.Value()) && Covers(specialRows.Keys, sells.Value())
    ensures forall i: nat :: i in specialRows <==> i < |w + [snapshot]| && Records(w + [snapshot], i)
    ensures Summarises(buys.Value(), WindowSeries(w + [snapshot], Buy))
    ensures Summarises(sells.Value(), WindowSeries(w + [snapshot], Sell))
  {
    hide Summarises, WindowSeries, Exceeds, FallsBelow, Records;
    RecordsNow(w, snapshot);
    forall i: nat | i < |w| ensures Records(w + [snapshot], i) == Records(w, i) {
      RecordsBefore(w, snapshot, i);
    }
    specialRows := special;
    SeriesStep(w, snapshot, Buy);
    SeriesStep(w, snapshot, Sell);
    var buyExtreme := (buys.high, buys.low);
    var sellExtreme := (sells.high, sells.low);
    buys.Update(CandidateOf(snapshot, Buy, rowIndex), WindowSeries(w, Buy));
    sells.Update(CandidateOf(snapshot, Sell, rowIndex), WindowSeries(w, Sell));
    if (buys.high, buys.low) != buyExtreme || (sells.high, sells.low) != sellExtreme {
      specialRows := specialRows[rowIndex := snapshot];
    }
  }

  /** The streaming loop of `PublicSeriesView.get`. */
  method Stream(rows: seq<Row>, cutoff: int, sample: set<nat>)
    returns (streamed: nat, selectedRows: map<nat, Row>, specialRows: map<nat, Row>,
             buy: Stats, sell: Stats, monthBuy: Stats, monthSell: Stats)
    ensures streamed == |Window(rows, cutoff)|
    ensures Kept(selectedRows, Window(rows, cutoff)) && Kept(specialRows, Window(rows, cutoff))
    ensures forall i :: i in selectedRows <==> i in sample && i < |Window(rows, cutoff)|
    ensures forall i: nat :: i in specialRows <==> i < |Window(rows, cutoff)| && Records(Window(rows, cutoff), i)
    ensures Covers(specialRows.Keys, buy) && Covers(specialRows.Keys, sell)
    ensures Summarises(buy, WindowSeries(Window(rows, cutoff), Buy))
            && Summarises(sell, WindowSeries(Window(rows, cutoff), Sell))
    ensures Summarises(monthBuy, MonthSeries(rows, cutoff, Buy))
            && Summarises(monthSell, MonthSeries(rows, cutoff, Sell))
  {
    hide Summarises, WindowSeries, MonthSeries, Window, Records;
    var buys := new SeriesState();
    var sells := new SeriesState();
    var monthBuys := new SeriesState();
    var monthSells := new SeriesState();
    selectedRows, specialRows := map[], map[];
    var selectedIndex := 0;
    var n := 0;
    ghost var w: seq<Row> := [];
    while n < |rows|
      invariant 0 <= n <= |rows| && w == Window(rows[..n], cutoff) && selectedIndex == |w|
      invariant fresh(buys) && fresh(sells) && fresh(monthBuys) && fresh(monthSells)
      invariant buys != sells && buys != monthBuys && buys != monthSells
      invariant sells != monthBuys && sells != monthSells && monthBuys != monthSells
      invariant Kept(selectedRows, w) && Kept(specialRows, w)
      invariant forall i :: i in selectedRows <==> i in sample && i < |w|
      invariant forall i: nat :: i in specialRows <==> i < |w| && Records(w, i)
      invariant Covers(specialRows.Keys, buys.Value()) && Covers(specialRows.Keys, sells.Value())
      invariant Summarises(buys.Value(), WindowSeries(w, Buy)) && Summarises(sells.Value(), WindowSeries(w, Sell))
      invariant Summarises(monthBuys.Value(), MonthSeries(rows[..n], cutoff, Buy))
      invariant Summarises(monthSells.Value(), MonthSeries(rows[..n], cutoff, Sell))
    {
      var snapshot := rows[n];
      WindowStep(rows, n, cutoff);
      monthBuys.Update(CandidateOf(snapshot, Buy, selectedIndex), MonthSeries(rows[..n], cutoff, Buy));
      monthSells.Update(CandidateOf(snapshot, Sell, selectedIndex), MonthSeries(rows[..n], cutoff, Sell));
      n := n + 1;
      if snapshot.observedAt < cutoff {
        continue;
      }
      var rowIndex := selectedIndex;
      selectedIndex := selectedIndex + 1;
      if rowIndex in sample {
        selectedRows := selectedRows[rowIndex := snapshot];
      }
      specialRows := Observe(buys, sells, specialRows, snapshot, rowIndex, w);
      w := w + [snapshot];
    }
    assert rows[..n] == rows;
    streamed := selectedIndex;
    buy, sell, monthBuy, monthSell := buys.Value(), sells.Value(), monthBuys.Value(), monthSells.Value();
  }

  /** Adds the candidates of `order` while there is room. */
  method Fill(start: set<nat>, order: seq<nat>, candidates: set<nat>) returns (selected: set<nat>)
    requires start <= candidates && |start| <= POINT_LIMIT
    requires forall j, k :: 0 <= j < k < |order| ==> order[j] < order[k]
    ensures start <= selected <= candidates && |selected| <= POINT_LIMIT
    ensures forall i :: i in selected ==> i in start || i in order
    ensures |start| == POINT_LIMIT ==> selected == start
    ensures forall i, j :: i in order && i in candidates && i !in selected && j in selected && j !in start ==> j < i
    ensures |selected| < POINT_LIMIT ==> forall i :: i in order && i in candidates ==> i in selected
  {
    selected := start;
    var k := 0;
    while k < |order| && |selected| < POINT_LIMIT
      invariant 0 <= k <= |order| && |selected| <= POINT_LIMIT && start <= selected <= candidates
      invariant forall j :: 0 <= j < k && order[j] in candidates ==> order[j] in selected
      invariant forall i :: i in selected ==> i in start || i in order[..k]
      invariant |start| == POINT_LIMIT ==> selected == start
    {
      if order[k] in candidates {
        selected := selected + {order[k]};
      }
      k := k + 1;
    }
  }

  /** Which positions are chosen: all candidates if they are few enough; else the protected ones, then
      the even sample from its start, then the other candidates from theirs. */
  ghost predicate Chosen(chosen: set<nat>, candidates: set<nat>, sample: set<nat>, protected: set<nat>)
  {
    if |candidates| <= 240 then chosen == candidates
    else
      && |chosen| == 240 && protected * candidates <= chosen <= candidates
      && (forall i, j :: i in sample && i in candidates && i !in chosen && j in chosen && j !in protected ==>
            j in sample && j < i)
      && (forall i, j :: i in candidates && i !in chosen && j in chosen && j !in protected && j !in sample ==> j < i)
  }

  method Choose(sample: set<nat>, candidates: set<nat>, protected: set<nat>, bound: nat) returns (selected: set<nat>)
    requires |candidates| > POINT_LIMIT && |protected| <= POINT_LIMIT && forall i :: i in candidates ==> i < bound
    ensures Chosen(selected, candidates, sample, protected)
  {
    hide Chosen, Ascending;
    var start := protected * candidates;
    Shrinks(protected, candidates);
    var even := Fill(start, Ascending(sample, bound), candidates);
    selected := Fill(even, Ascending(candidates, bound), candidates);
    TwoFills(start, even, selected, candidates, sample, protected, bound);
  }

  lemma Full(selected: set<nat>, candidates: set<nat>)
    requires selected <= candidates && |candidates| > POINT_LIMIT
    requires |selected| < POINT_LIMIT ==> candidates <= selected
    ensures |selected| >= POINT_LIMIT
  {
    assert candidates <= selected ==> candidates == selected;
  }

  lemma TwoFills(start: set<nat>, even: set<nat>, selected: set<nat>, candidates: set<nat>, sample: set<nat>,
                 protected: set<nat>, bound: nat)
    requires |candidates| > POINT_LIMIT && forall i :: i in candidates ==> i < bound
    requires start == protected * candidates && start <= even <= selected <= candidates
    requires |even| <= POINT_LIMIT && |selected| <= POINT_LIMIT
    requires forall i :: i in even ==> i in start || i in Ascending(sample, bound)
    requires forall i, j ::
      (i in Ascending(sample, bound) && i in candidates && i !in even && j in even && j !in start) ==> j < i
    requires |even| < POINT_LIMIT ==> forall i :: i in Ascending(sample, bound) && i in candidates ==> i in even
    requires |even| == POINT_LIMIT ==> selected == even
    requires forall i, j :: i in Ascending(candidates, bound) && i !in selected && j in selected && j !in even ==> j < i
    requires |selected| < POINT_LIMIT ==> forall i :: i in Ascending(candidates, bound) ==> i in selected
    ensures Chosen(selected, candidates, sample, protected)
  {
    Full(selected, candidates);
    forall i, j | i in sample && i in candidates && i !in selected && j in selected && j !in protected
      ensures j in sample && j < i
    {
      assert i in Ascending(sample, bound) && i !in even;
      assert |even| == POINT_LIMIT && j in even && j !in start;
    }
  }

  lemma Shrinks(s: set<nat>, t: set<nat>)
    ensures |s * t| <= |s|
  {
    assert s == s * t + (s - t);
  }

  datatype Response = Response(count: nat, indexes: seq<nat>, points: seq<Row>, buy: Stats, sell: Stats,
      monthBuy: Stats, monthSell: Stats)

  function Positions(indexes: seq<nat>): set<nat>
  {
    set i | i in indexes
  }

  /** Rows of the window, in order, and no more than can be drawn. */
  ghost predicate ShowsRows(indexes: seq<nat>, points: seq<Row>, w: seq<Row>)
  {
    && |points| == |indexes| <= POINT_LIMIT
    && (forall j, k :: 0 <= j < k < |indexes| ==> indexes[j] < indexes[k])
    && (forall k :: 0 <= k < |indexes| ==> indexes[k] < |w| && points[k] == w[indexes[k]])
  }

  /** The rows that are shown whatever else is left out: both ends, and the highs and lows. */
  function ProtectedRows(count: nat, buy: Stats, sell: Stats): (s: set<nat>)
  {
    Ends(count) + RowsOf([buy.high, buy.low, sell.high, sell.low])
  }

  function Ends(count: nat): set<nat>
  {
    if count > 0 then {0, count - 1} else {}
  }

  function RowsOf(cs: seq<Option<Candidate>>): (s: set<nat>)
    ensures forall k :: 0 <= k < |cs| ==> Covered(cs[k], s)
  {
    if cs == [] then {} else RowsOf(cs[..|cs| - 1]) + RowOf(cs[|cs| - 1])
  }

  function RowOf(c: Option<Candidate>): set<nat>
  {
    if c.Some? then {c.value.rowIndex} else {}
  }

  lemma UnionSize(s: set<nat>, t: set<nat>)
    ensures |s + t| <= |s| + |t|
  {
    assert s + t == s + (t - s);
  }

  lemma {:induction false} RowsSize(cs: seq<Option<Candidate>>)
    ensures |RowsOf(cs)| <= |cs|
  {
    if cs != [] {
      RowsSize(cs[..|cs| - 1]);
      UnionSize(RowsOf(cs[..|cs| - 1]), RowOf(cs[|cs| - 1]));
    }
  }

  lemma RowsStep(cs: seq<Option<Candidate>>, k: nat)
    requires k < |cs|
    ensures RowsOf(cs[..k + 1]) == RowsOf(cs[..k]) + RowOf(cs[k])
  {
    assert cs[..k + 1][..k] == cs[..k];
  }

  method Protected(count: nat, buy: Stats, sell: Stats) returns (protected: set<nat>)
    ensures protected == ProtectedRows(count, buy, sell) && |protected| <= 6
  {
    hide RowsOf;
    protected := if count > 0 then {0, count - 1} else {};
    var extrema := [buy.high, buy.low, sell.high, sell.low];
    NoRows();
    for k := 0 to |extrema|
      invariant protected == Ends(count) + RowsOf(extrema[..k])
    {
      RowsStep(extrema, k);
      if extrema[k].Some? {
        protected := protected + {extrema[k].value.rowIndex};
      }
    }
    assert extrema[..|extrema|] == extrema;
    RowsSize(extrema);
    UnionSize(Ends(count), RowsOf(extrema));
  }

  lemma NoRows()
    ensures RowsOf([]) == {}
  {
  }

  /** The positions to show: all candidates, or a choice among them. */
  method Pick(count: nat, streamed: nat, candidates: set<nat>, buy: Stats, sell: Stats) returns (chosen: set<nat>)
    requires forall i :: i in candidates ==> i < streamed
    ensures Chosen(chosen, candidates, SampleIndexes(count), ProtectedRows(count, buy, sell))
  {
    hide SampleIndexes, ProtectedRows;
    chosen := candidates;
    if |candidates| > POINT_LIMIT {
      var protected := Protected(count, buy, sell);
      chosen := Choose(SampleIndexes(count), candidates, protected, streamed);
    }
  }

  /** What such a choice shows in any case. */
  lemma ChosenFacts(chosen: set<nat>, candidates: set<nat>, count: nat, buy: Stats, sell: Stats)
    requires Chosen(chosen, candidates, SampleIndexes(count), ProtectedRows(count, buy, sell))
    requires Covers(candidates, buy) && Covers(candidates, sell)
    ensures chosen <= candidates && |chosen| <= POINT_LIMIT
    ensures if |candidates| <= POINT_LIMIT then chosen == candidates else |chosen| == POINT_LIMIT
    ensures count > 0 ==> (0 in candidates ==> 0 in chosen) && (count - 1 in candidates ==> count - 1 in chosen)
    ensures Covers(chosen, buy) && Covers(chosen, sell)
  {
    hide SampleIndexes;
    var protected := ProtectedRows(count, buy, sell);
    var extrema := [buy.high, buy.low, sell.high, sell.low];
    assert Covered(extrema[0], protected) && Covered(extrema[1], protected);
    assert Covered(extrema[2], protected) && Covered(extrema[3], protected);
    if |candidates| > POINT_LIMIT {
      forall i | i in protected && i in candidates ensures i in chosen {
        assert i in protected * candidates;
      }
    }
  }

  /** The rows at those positions, in order. */
  method Render(chosen: set<nat>, streamed: nat, selectedRows: map<nat, Row>, specialRows: map<nat, Row>,
      ghost w: seq<Row>)
    returns (indexes: seq<nat>, points: seq<Row>)
    requires streamed == |w| && Kept(selectedRows, w) && Kept(specialRows, w)
    requires chosen <= selectedRows.Keys + specialRows.Keys && |chosen| <= POINT_LIMIT
    ensures ShowsRows(indexes, points, w) && |indexes| == |chosen|
    ensures forall i :: i in chosen <==> i in indexes
  {
    hide Ascending;
    indexes := Ascending(chosen, streamed);
    AscendingSize(chosen, streamed);
    points := seq(|indexes|, k requires 0 <= k < |indexes| && indexes[k] in chosen =>
      if indexes[k] in specialRows then specialRows[indexes[k]] else selectedRows[indexes[k]]);
  }

  /** What can be shown: the sampled rows, and those that set a new high or low. */
  ghost function Candidates(w: seq<Row>, count: nat): set<nat>
  {
    set i: nat | i < |w| && (i in SampleIndexes(count) || Records(w, i))
  }

  /** `PublicSeriesView.get` on the snapshots of the last month. `count` is the number of
      rows in the window when they were counted, which another transaction may have changed
      before they are read. Whatever it is, the statistics are exact and at most 240 rows are
      shown in order, with the extrema among them; if it still holds, the first and the last
      row are shown too, and as many rows as there can be.
    */
  method Get(rows: seq<Row>, cutoff: int, count: nat) returns (r: Response)
    ensures r.count == count && ShowsRows(r.indexes, r.points, Window(rows, cutoff))
    ensures Covers(Positions(r.indexes), r.buy) && Covers(Positions(r.indexes), r.sell)
    ensures Summarises(r.buy, WindowSeries(Window(rows, cutoff), Buy))
            && Summarises(r.sell, WindowSeries(Window(rows, cutoff), Sell))
    ensures Summarises(r.monthBuy, MonthSeries(rows, cutoff, Buy))
            && Summarises(r.monthSell, MonthSeries(rows, cutoff, Sell))
    ensures Chosen(Positions(r.indexes), Candidates(Window(rows, cutoff), count), SampleIndexes(count),
                   ProtectedRows(count, r.buy, r.sell))
    ensures count > 0 && Window(rows, cutoff) != [] ==> 0 in r.indexes
    ensures 0 < count <= |Window(rows, cutoff)| ==> count - 1 in r.indexes
    ensures count == |Window(rows, cutoff)| ==> |r.indexes| == if count <= POINT_LIMIT then count else POINT_LIMIT
  {
    hide Summarises, WindowSeries, MonthSeries, Window, Covers, SampleIndexes, ShowsRows, Kept, Records, Chosen,
      ProtectedRows;
    var streamed, selectedRows, specialRows, buy, sell, monthBuy, monthSell :=
        Stream(rows, cutoff, SampleIndexes(count));
    ghost var w := Window(rows, cutoff);
    var candidates := selectedRows.Keys + specialRows.Keys;
    CandidateFacts(count, selectedRows, specialRows, w);
    MoreCovered(specialRows.Keys, candidates, buy);
    MoreCovered(specialRows.Keys, candidates, sell);
    assert candidates == Candidates(w, count);
    var chosen := Pick(count, streamed, candidates, buy, sell);
    ChosenFacts(chosen, candidates, count, buy, sell);
    var indexes, points := Render(chosen, streamed, selectedRows, specialRows, w);
    assert Positions(indexes) == chosen;
    r := Response(count, indexes, points, buy, sell, monthBuy, monthSell);
  }

  lemma MoreCovered(s: set<nat>, t: set<nat>, stats: Stats)
    requires s <= t && Covers(s, stats)
    ensures Covers(t, stats)
  {
  }

  /** What there is to choose from. */
  lemma CandidateFacts(count: nat, selectedRows: map<nat, Row>, specialRows: map<nat, Row>, w: seq<Row>)
    requires Kept(specialRows, w) && forall i :: i in selectedRows <==> i in SampleIndexes(count) && i < |w|
    ensures forall i :: i in selectedRows.Keys + specialRows.Keys ==> i < |w|
    ensures count > 0 && w != [] ==> 0 in selectedRows.Keys + specialRows.Keys
    ensures 0 < count <= |w| ==> count - 1 in selectedRows.Keys + specialRows.Keys
    ensures count == |w| ==>
      if count <= POINT_LIMIT then |selectedRows.Keys + specialRows.Keys| == count
      else |selectedRows.Keys + specialRows.Keys| >= POINT_LIMIT
  {
    hide SampleIndexes;
    if count > 0 {
      SampleHasEnds(count);
    }
    if count == |w| {
      CandidateCount(count, selectedRows, specialRows, w);
    }
  }

  lemma CandidateCount(count: nat, selectedRows: map<nat, Row>, specialRows: map<nat, Row>, w: seq<Row>)
    requires count == |w| && Kept(specialRows, w)
    requires forall i :: i in selectedRows <==> i in SampleIndexes(count) && i < |w|
    ensures |selectedRows.Keys + specialRows.Keys| >= if count <= POINT_LIMIT then count else POINT_LIMIT
    ensures count <= POINT_LIMIT ==> |selectedRows.Keys + specialRows.Keys| == count
  {
    var candidates := selectedRows.Keys + specialRows.Keys;
    if count == 0 {
      assert candidates == {};
    } else {
      SampleHasEnds(count);
      assert selectedRows.Keys == SampleIndexes(count);
      if count > POINT_LIMIT {
        SpreadSize(POINT_LIMIT, count);
        assert candidates == SampleIndexes(count) + (candidates - SampleIndexes(count));
      } else {
        assert candidates == Below(count);
      }
    }
  }
}
