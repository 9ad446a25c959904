// Idle periods: the gaps-and-islands query against a plain left-to-right scan.
module Idle {
  import opened Protocol

  // One row of a head, in the query's ORDER BY ts, cap_seq order; `noLoad` is the
  // status and torque test. Time is in microseconds, the store's resolution.
  datatype Cycle = Cycle(ts: int, noLoad: bool)

  const SECOND: int := 1_000_000

  // DATE_DIFF('second', a, b): second boundaries crossed.
  function Seconds(a: int, b: int): int {
    b / SECOND - a / SECOND
  }

  // (machine, head, ts) identifies a row, so a head's rows have distinct times.
  ghost predicate Sorted(h: seq<Cycle>) {
    forall i, j :: 0 <= i < j < |h| ==> h[i].ts < h[j].ts
  }

  /******* The query's window functions over one head *******/

  // Rows before n of one class.
  function Count(h: seq<Cycle>, n: nat, noLoad: bool): nat
    requires n <= |h|
  {
    if n == 0 then 0 else Count(h, n - 1, noLoad) + if h[n - 1].noLoad == noLoad then 1 else 0
  }

  function RowNumber(h: seq<Cycle>, i: nat): nat
    requires i < |h|
  {
    i + 1
  }

  function RowNumberInClass(h: seq<Cycle>, i: nat): nat
    requires i < |h|
  {
    Count(h, i + 1, h[i].noLoad)
  }

  function Island(h: seq<Cycle>, i: nat): int
    requires i < |h|
  {
    RowNumber(h, i) - RowNumberInClass(h, i)
  }

  // LAG over the no-load rows of i's island, searched downwards from j.
  function LagFrom(h: seq<Cycle>, i: nat, j: nat): Option<nat>
    requires j <= i < |h|
  {
    if j == 0 then None
    else if h[j - 1].noLoad && Island(h, j - 1) == Island(h, i) then Some(j - 1)
    else LagFrom(h, i, j - 1)
  }

  // A NULL lag is not a gap.
  function GapBreak(h: seq<Cycle>, i: nat, maxGap: int): nat
    requires i < |h|
  {
    var lag := LagFrom(h, i, i);
    if lag.Some? && lag.value < |h| && Seconds(h[lag.value].ts, h[i].ts) > maxGap then 1 else 0
  }

  // SUM(gap_break) over the no-load rows of an island, up to row n - 1.
  function Breaks(h: seq<Cycle>, island: int, n: nat, maxGap: int): nat
    requires n <= |h|
  {
    if n == 0 then 0
    else Breaks(h, island, n - 1, maxGap)
         + (if h[n - 1].noLoad && Island(h, n - 1) == island then GapBreak(h, n - 1, maxGap) else 0)
  }

  function Segment(h: seq<Cycle>, i: nat, maxGap: int): nat
    requires i < |h|
  {
    Breaks(h, Island(h, i), i + 1, maxGap)
  }

  ghost predicate SameGroup(h: seq<Cycle>, i: nat, j: nat, maxGap: int)
    requires i < |h| && j < |h|
  {
    h[i].noLoad && h[j].noLoad && Island(h, i) == Island(h, j) && Segment(h, i, maxGap) == Segment(h, j, maxGap)
  }

  /******* What a sustained run is *******/

  // Row k continues the run of row k - 1.
  predicate Linked(h: seq<Cycle>, k: nat, maxGap: int)
    requires 0 < k < |h|
  {
    h[k - 1].noLoad && h[k].noLoad && Seconds(h[k - 1].ts, h[k].ts) <= maxGap
  }

  ghost predicate Sustained(h: seq<Cycle>, i: nat, j: nat, maxGap: int)
    requires i <= j < |h|
  {
    h[i].noLoad && h[j].noLoad && forall k :: i < k <= j ==> Linked(h, k, maxGap)
  }

  lemma {:induction false} CountAll(h: seq<Cycle>, n: nat)
    requires n <= |h|
    ensures Count(h, n, true) + Count(h, n, false) == n
  {
    if n > 0 {
      CountAll(h, n - 1);
    }
  }

  // A no-load row's island is the number of other rows before it.
  lemma IslandCounts(h: seq<Cycle>, i: nat)
    requires i < |h| && h[i].noLoad
    ensures Island(h, i) == Count(h, i, false)
  {
    CountAll(h, i + 1);
  }

  lemma {:induction false} CountGrows(h: seq<Cycle>, i: nat, j: nat)
    requires i <= j <= |h|
    ensures Count(h, i, false) <= Count(h, j, false)
    ensures Count(h, i, false) == Count(h, j, false) <==> forall k :: i <= k < j ==> h[k].noLoad
    decreases j
  {
    if i < j {
      CountGrows(h, i, j - 1);
    }
  }

  // Two no-load rows share an island exactly when no other row lies between them.
  lemma SameIsland(h: seq<Cycle>, i: nat, j: nat)
    requires i <= j < |h| && h[i].noLoad && h[j].noLoad
    ensures Island(h, i) == Island(h, j) <==> forall k :: i <= k <= j ==> h[k].noLoad
  {
    IslandCounts(h, i);
    IslandCounts(h, j);
    CountGrows(h, i, j);
  }

  lemma {:induction false} NoLag(h: seq<Cycle>, i: nat, j: nat)
    requires j <= i < |h| && forall k :: 0 <= k < j && h[k].noLoad ==> Island(h, k) != Island(h, i)
    ensures LagFrom(h, i, j) == None
  {
    hide Island;
    if j > 0 {
      NoLag(h, i, j - 1);
    }
  }

  // LAG sees the row just before, or nothing.
  lemma LagIsPrevious(h: seq<Cycle>, i: nat)
    requires i < |h| && h[i].noLoad
    ensures LagFrom(h, i, i) == if i > 0 && h[i - 1].noLoad then Some(i - 1) else None
  {
    if i > 0 && h[i - 1].noLoad {
      SameIsland(h, i - 1, i);
    } else {
      forall k | 0 <= k < i && h[k].noLoad ensures Island(h, k) != Island(h, i) {
        SameIsland(h, k, i);
      }
      NoLag(h, i, i);
    }
  }

  lemma BreakIsGap(h: seq<Cycle>, i: nat, maxGap: int)
    requires 0 < i < |h| && h[i - 1].noLoad && h[i].noLoad
    ensures GapBreak(h, i, maxGap) == if Linked(h, i, maxGap) then 0 else 1
  {
    LagIsPrevious(h, i);
    hide LagFrom;
  }

  lemma {:induction false} BreaksBetween(h: seq<Cycle>, i: nat, j: nat, maxGap: int)
    requires i <= j < |h| && forall k :: i <= k <= j ==> h[k].noLoad
    ensures Island(h, j) == Island(h, i)
    ensures Breaks(h, Island(h, i), i + 1, maxGap) <= Breaks(h, Island(h, i), j + 1, maxGap)
    ensures Breaks(h, Island(h, i), i + 1, maxGap) == Breaks(h, Island(h, i), j + 1, maxGap)
       <==> forall k :: i < k <= j ==> Linked(h, k, maxGap)
    decreases j
  {
    SameIsland(h, i, j);
    if i < j {
      BreaksBetween(h, i, j - 1, maxGap);
      BreakIsGap(h, j, maxGap);
      hide Island, GapBreak, Linked;
    }
  }

  // The query groups two rows together exactly when they belong to one sustained
  // run: nothing but no-load rows from one to the other, no gap above max_gap.
  lemma GroupsAreRuns(h: seq<Cycle>, i: nat, j: nat, maxGap: int)
    requires i <= j < |h| && h[i].noLoad && h[j].noLoad
    ensures SameGroup(h, i, j, maxGap) <==> Sustained(h, i, j, maxGap)
  {
    SameIsland(h, i, j);
    if forall k :: i <= k <= j ==> h[k].noLoad {
      BreaksBetween(h, i, j, maxGap);
      hide Breaks, Island, Linked;
    } else {
      var k :| i <= k <= j && !h[k].noLoad;
      assert k > i && !Linked(h, k, maxGap);
      hide Breaks, Island;
    }
  }

  /******* The scan *******/

  datatype Span = Span(lo: nat, hi: nat)

  // Left to right: a linked row extends the last span, any other no-load row
  // opens one.
  function Scan(h: seq<Cycle>, n: nat, maxGap: int): seq<Span>
    requires n <= |h|
  {
    if n == 0 then []
    else
      var before := Scan(h, n - 1, maxGap);
      if !h[n - 1].noLoad then before
      else if n > 1 && Linked(h, n - 1, maxGap) && before != [] then
        before[..|before| - 1] + [Span(before[|before| - 1].lo, n)]
      else before + [Span(n - 1, n)]
  }

  ghost predicate SpanOk(h: seq<Cycle>, s: Span, n: nat, maxGap: int)
    requires n <= |h|
  {
    && s.lo < s.hi <= n && Sustained(h, s.lo, s.hi - 1, maxGap)
    && (s.lo > 0 ==> !Linked(h, s.lo, maxGap))
    && (s.hi < n ==> !Linked(h, s.hi, maxGap))
  }

  ghost predicate Covered(h: seq<Cycle>, spans: seq<Span>, n: nat)
    requires n <= |h|
  {
    forall i :: 0 <= i < n && h[i].noLoad ==> exists a :: 0 <= a < |spans| && Within(i, spans[a])
  }

  ghost predicate Apart(spans: seq<Span>) {
    forall a, b :: 0 <= a < b < |spans| ==> spans[a].hi <= spans[b].lo
  }

  ghost predicate SpansOk(h: seq<Cycle>, spans: seq<Span>, n: nat, maxGap: int)
    requires n <= |h|
  {
    forall a :: 0 <= a < |spans| ==> SpanOk(h, spans[a], n, maxGap)
  }

  // Maximal sustained runs, in order, that together are the no-load rows.
  ghost predicate ScanOk(h: seq<Cycle>, spans: seq<Span>, n: nat, maxGap: int)
    requires n <= |h|
  {
    && SpansOk(h, spans, n, maxGap)
    && Apart(spans)
    && Covered(h, spans, n)
    && (n > 0 && h[n - 1].noLoad ==> spans != [] && spans[|spans| - 1].hi == n)
  }

  ghost predicate Within(i: nat, s: Span) {
    s.lo <= i < s.hi
  }

  lemma SpanStays(h: seq<Cycle>, s: Span, n: nat, maxGap: int)
    requires n < |h| && SpanOk(h, s, n, maxGap) && (s.hi == n ==> !(n > 0 && Linked(h, n, maxGap)))
    ensures SpanOk(h, s, n + 1, maxGap)
  {
    hide Linked;
  }

  lemma SpanExtends(h: seq<Cycle>, s: Span, n: nat, maxGap: int)
    requires 0 < n < |h| && SpanOk(h, s, n, maxGap) && s.hi == n && Linked(h, n, maxGap)
    ensures SpanOk(h, Span(s.lo, n + 1), n + 1, maxGap)
  {
    assert h[n].noLoad;
    hide Linked;
  }

  lemma SpanShape(h: seq<Cycle>, s: Span, n: nat, maxGap: int)
    requires n <= |h| && SpanOk(h, s, n, maxGap)
    ensures s.lo < s.hi <= n
  {
  }

  // Row m is not a no-load row.
  lemma ScanKeeps(h: seq<Cycle>, m: nat, spans: seq<Span>, maxGap: int)
    requires m < |h| && ScanOk(h, spans, m, maxGap) && !h[m].noLoad
    ensures ScanOk(h, spans, m + 1, maxGap)
  {
    assert m > 0 ==> !Linked(h, m, maxGap);
    hide SpanOk, Linked;
    forall a | 0 <= a < |spans| ensures SpanOk(h, spans[a], m + 1, maxGap) {
      SpanStays(h, spans[a], m, maxGap);
    }
    assert Covered(h, spans, m + 1);
  }

  // The span at `at` is replaced or added, and takes in row m.
  lemma CoversMore(h: seq<Cycle>, m: nat, spans: seq<Span>, at: nat, s: Span)
    requires m < |h| && Covered(h, spans, m) && at <= |spans| && s.lo <= m < s.hi
    requires at < |spans| ==> at == |spans| - 1 && s.lo == spans[at].lo && spans[at].hi <= s.hi
    ensures Covered(h, spans[..at] + [s], m + 1)
  {
    var more := spans[..at] + [s];
    forall i | 0 <= i < m + 1 && h[i].noLoad ensures exists a :: 0 <= a < |more| && Within(i, more[a]) {
      if i < m {
        var a :| 0 <= a < |spans| && Within(i, spans[a]);
        assert Within(i, more[a]);
      } else {
        assert Within(i, more[at]);
      }
    }
  }

  lemma SpansStay(h: seq<Cycle>, m: nat, spans: seq<Span>, at: nat, s: Span, maxGap: int)
    requires m < |h| && SpansOk(h, spans, m, maxGap) && at <= |spans| && SpanOk(h, s, m + 1, maxGap)
    requires forall a :: 0 <= a < at ==> spans[a].hi == m ==> !(m > 0 && Linked(h, m, maxGap))
    ensures SpansOk(h, spans[..at] + [s], m + 1, maxGap)
  {
    var more := spans[..at] + [s];
    hide SpanOk, Linked;
    forall a | 0 <= a < |more| ensures SpanOk(h, more[a], m + 1, maxGap) {
      if a < at { SpanStays(h, spans[a], m, maxGap); }
    }
  }

  lemma OwnSpan(h: seq<Cycle>, m: nat, maxGap: int)
    requires m < |h| && h[m].noLoad && (m > 0 ==> !Linked(h, m, maxGap))
    ensures SpanOk(h, Span(m, m + 1), m + 1, maxGap)
  {
    hide Linked;
  }

  lemma ApartAppended(h: seq<Cycle>, m: nat, spans: seq<Span>, maxGap: int)
    requires m < |h| && SpansOk(h, spans, m, maxGap) && Apart(spans)
    ensures Apart(spans + [Span(m, m + 1)])
  {
    hide SpanOk;
    forall a | 0 <= a < |spans| ensures spans[a].hi <= m { SpanShape(h, spans[a], m, maxGap); }
  }

  // Row m is one, and starts a span of its own.
  lemma ScanParts(h: seq<Cycle>, m: nat, spans: seq<Span>, maxGap: int)
    requires m < |h| && ScanOk(h, spans, m, maxGap) && (m > 0 ==> !Linked(h, m, maxGap))
    ensures SpansOk(h, spans, m, maxGap) && Apart(spans) && Covered(h, spans, m) && spans[..|spans|] == spans
    ensures forall a :: 0 <= a < |spans| ==> spans[a].hi == m ==> !(m > 0 && Linked(h, m, maxGap))
  {
    hide SpansOk, Apart, Covered, Linked;
  }

  lemma ScanOpens(h: seq<Cycle>, m: nat, spans: seq<Span>, maxGap: int)
    requires m < |h| && ScanOk(h, spans, m, maxGap) && h[m].noLoad && (m > 0 ==> !Linked(h, m, maxGap))
    ensures ScanOk(h, spans + [Span(m, m + 1)], m + 1, maxGap)
  {
    hide *;
    var s := Span(m, m + 1);
    OwnSpan(h, m, maxGap);
    ScanParts(h, m, spans, maxGap);
    SpansStay(h, m, spans, |spans|, s, maxGap);
    CoversMore(h, m, spans, |spans|, s);
    ApartAppended(h, m, spans, maxGap);
    OpenSpan(h, m, spans, s, maxGap);
  }

  lemma ApartReplaced(spans: seq<Span>, s: Span)
    requires Apart(spans) && spans != [] && s.lo == spans[|spans| - 1].lo
    ensures Apart(spans[..|spans| - 1] + [s])
    ensures forall a :: 0 <= a < |spans| - 1 ==> spans[a].hi <= s.lo
  {
  }

  // Row m is one, and extends the last span.
  // Earlier spans ended before the last one began.
  lemma EarlierEnd(spans: seq<Span>, m: nat)
    requires Apart(spans) && spans != [] && spans[|spans| - 1].lo < m
    ensures forall a :: 0 <= a < |spans| - 1 ==> spans[a].hi < m
  {
  }

  lemma LastSpan(h: seq<Cycle>, m: nat, spans: seq<Span>, maxGap: int)
    requires 0 < m < |h| && ScanOk(h, spans, m, maxGap) && Linked(h, m, maxGap)
    ensures h[m].noLoad && spans != [] && SpansOk(h, spans, m, maxGap) && Apart(spans) && Covered(h, spans, m)
    ensures var s := spans[|spans| - 1]; s.hi == m && s.lo < m && SpanOk(h, s, m, maxGap)
  {
  }

  lemma OpenSpan(h: seq<Cycle>, m: nat, init: seq<Span>, s: Span, maxGap: int)
    requires m < |h| && h[m].noLoad && s.hi == m + 1 && SpansOk(h, init + [s], m + 1, maxGap)
    requires Apart(init + [s]) && Covered(h, init + [s], m + 1)
    ensures ScanOk(h, init + [s], m + 1, maxGap)
  {
    hide SpansOk, Apart, Covered;
  }

  lemma ScanExtends(h: seq<Cycle>, m: nat, spans: seq<Span>, maxGap: int)
    requires 0 < m < |h| && ScanOk(h, spans, m, maxGap) && Linked(h, m, maxGap)
    ensures spans != [] && ScanOk(h, spans[..|spans| - 1] + [Span(spans[|spans| - 1].lo, m + 1)], m + 1, maxGap)
  {
    hide *;
    LastSpan(h, m, spans, maxGap);
    var last := |spans| - 1;
    var s := Span(spans[last].lo, m + 1);
    SpanExtends(h, spans[last], m, maxGap);
    EarlierEnd(spans, m);
    ApartReplaced(spans, s);
    SpansStay(h, m, spans, last, s, maxGap);
    CoversMore(h, m, spans, last, s);
    OpenSpan(h, m, spans[..last], s, maxGap);
  }

  lemma {:induction false} ScanLaw(h: seq<Cycle>, n: nat, maxGap: int)
    requires n <= |h|
    ensures ScanOk(h, Scan(h, n, maxGap), n, maxGap)
  {
    hide ScanOk, Linked;
    if n > 0 {
      var m := n - 1;
      ScanLaw(h, m, maxGap);
      var spans := Scan(h, m, maxGap);
      if !h[m].noLoad {
        ScanKeeps(h, m, spans, maxGap);
      } else if m > 0 && Linked(h, m, maxGap) {
        ScanExtends(h, m, spans, maxGap);
      } else {
        ScanOpens(h, m, spans, maxGap);
      }
    } else {
      NothingScanned(h, maxGap);
    }
  }

  lemma NothingScanned(h: seq<Cycle>, maxGap: int)
    ensures ScanOk(h, [], 0, maxGap)
  {
  }

  /******* The report of one head *******/

  datatype Period = Period(start: int, end: int, cycles: nat, duration: int)

  ghost function Members(h: seq<Cycle>, i: nat, maxGap: int): set<nat>
    requires i < |h|
  {
    set j: nat | j < |h| && SameGroup(h, i, j, maxGap)
  }

  ghost function Least(s: set<nat>): nat
    requires s != {}
  {
    HasLeast(s);
    var x :| x in s && forall y :: y in s ==> x <= y;
    x
  }

  ghost function Greatest(s: set<nat>): nat
    requires s != {}
  {
    HasGreatest(s);
    var x :| x in s && forall y :: y in s ==> y <= x;
    x
  }

  lemma {:induction false} HasLeast(s: set<nat>)
    requires s != {}
    ensures exists x :: x in s && forall y :: y in s ==> x <= y
    decreases |s|
  {
    var a: nat :| a in s;
    if s != {a} {
      HasLeast(s - {a});
      var x: nat :| x in s - {a} && forall y :: y in s - {a} ==> x <= y;
      LeastOfTwo(s, a, x);
    } else {
      assert forall y :: y in s ==> a <= y;
    }
  }

  lemma LeastOfTwo(s: set<nat>, a: nat, x: nat)
    requires a in s && x in s - {a} && forall y :: y in s - {a} ==> x <= y
    ensures exists l :: l in s && forall y :: y in s ==> l <= y
  {
    var l := if a < x then a else x;
    assert l in s;
    forall y | y in s ensures l <= y {
      assert y == a || y in s - {a};
    }
  }

  lemma {:induction false} HasGreatest(s: set<nat>)
    requires s != {}
    ensures exists x :: x in s && forall y :: y in s ==> y <= x
    decreases |s|
  {
    var a :| a in s;
    if s != {a} {
      HasGreatest(s - {a});
      var x :| x in s - {a} && forall y :: y in s - {a} ==> y <= x;
      var g := if a > x then a else x;
      forall y | y in s ensures y <= g {
        assert y == a || y in s - {a};
      }
      assert g in s;
    }
  }

  // MIN(ts), MAX(ts), COUNT(*) of a group. Times rise with the row number.
  ghost function GroupPeriod(h: seq<Cycle>, group: set<nat>): Period
    requires group != {} && forall j :: j in group ==> j < |h|
  {
    var start, end := h[Least(group)].ts, h[Greatest(group)].ts;
    Period(start, end, |group|, Seconds(start, end))
  }

  // Rows start and end of a group are its earliest and latest times.
  lemma GroupTimes(h: seq<Cycle>, group: set<nat>)
    requires Sorted(h) && group != {} && forall j :: j in group ==> j < |h|
    ensures forall j :: j in group ==> GroupPeriod(h, group).start <= h[j].ts <= GroupPeriod(h, group).end
  {
  }

  ghost function PeriodAt(h: seq<Cycle>, i: nat, maxGap: int): Period
    requires i < |h| && h[i].noLoad
  {
    assert i in Members(h, i, maxGap);
    GroupPeriod(h, Members(h, i, maxGap))
  }

  // The query's rows for one head.
  ghost function HeadReport(h: seq<Cycle>, maxGap: int, threshold: int): set<Period> {
    set i: nat | i < |h| && h[i].noLoad && PeriodAt(h, i, maxGap).duration >= threshold :: PeriodAt(h, i, maxGap)
  }

  /******* The same from the scan *******/

  function SpanPeriod(h: seq<Cycle>, s: Span): Period
    requires s.lo < s.hi <= |h|
  {
    var start, end := h[s.lo].ts, h[s.hi - 1].ts;
    Period(start, end, s.hi - s.lo, Seconds(start, end))
  }

  ghost function Interval(lo: nat, hi: nat): set<nat> {
    set j: nat | j < hi && Within(j, Span(lo, hi))
  }

  lemma {:induction false} IntervalSize(lo: nat, hi: nat)
    requires lo <= hi
    ensures |Interval(lo, hi)| == hi - lo
    decreases hi - lo
  {
    if lo < hi {
      IntervalSize(lo, hi - 1);
      assert Interval(lo, hi) == Interval(lo, hi - 1) + {hi - 1};
    } else {
      assert Interval(lo, hi) == {};
    }
  }

  lemma BrokenBetween(h: seq<Cycle>, i: nat, k: nat, j: nat, maxGap: int)
    requires i < k <= j < |h| && !Linked(h, k, maxGap)
    ensures !Sustained(h, i, j, maxGap)
  {
  }

  lemma SustainedWithin(h: seq<Cycle>, s: Span, i: nat, j: nat, maxGap: int)
    requires SpanOk(h, s, |h|, maxGap) && i <= j < |h| && h[i].noLoad && h[j].noLoad
    ensures Within(i, s) && Within(j, s) ==> Sustained(h, i, j, maxGap)
    ensures Sustained(h, i, j, maxGap) ==> (Within(i, s) <==> Within(j, s))
  {
    hide Linked;
    if Within(i, s) && Within(j, s) {
      forall k | i < k <= j ensures Linked(h, k, maxGap) {}
    }
    if i < s.lo <= j {
      BrokenBetween(h, i, s.lo, j, maxGap);
    }
    if i < s.hi <= j {
      BrokenBetween(h, i, s.hi, j, maxGap);
    }
  }

  // A group of the query is one whole span of the scan.
  lemma GroupIsSpan(h: seq<Cycle>, s: Span, i: nat, maxGap: int)
    requires SpanOk(h, s, |h|, maxGap) && i < |h| && h[i].noLoad && Within(i, s)
    ensures Members(h, i, maxGap) == Interval(s.lo, s.hi)
  {
    hide SameGroup, SpanOk, Sustained;
    forall j: nat ensures j in Members(h, i, maxGap) <==> j in Interval(s.lo, s.hi) {
      MemberWithin(h, s, i, j, maxGap);
    }
  }

  lemma MemberWithin(h: seq<Cycle>, s: Span, i: nat, j: nat, maxGap: int)
    requires SpanOk(h, s, |h|, maxGap) && i < |h| && h[i].noLoad && Within(i, s)
    ensures j < |h| && SameGroup(h, i, j, maxGap) <==> s.lo <= j < s.hi
  {
    hide SameGroup, SpanOk, Sustained;
    SpanRows(h, s, j, maxGap);
    if j < |h| {
      SameGroupClasses(h, i, j, maxGap);
      if h[j].noLoad {
        if i <= j {
          GroupsAreRuns(h, i, j, maxGap);
          SustainedWithin(h, s, i, j, maxGap);
        } else {
          GroupsAreRuns(h, j, i, maxGap);
          SustainedWithin(h, s, j, i, maxGap);
        }
      }
    }
  }

  lemma SameGroupClasses(h: seq<Cycle>, i: nat, j: nat, maxGap: int)
    requires i < |h| && j < |h|
    ensures SameGroup(h, i, j, maxGap) <==> SameGroup(h, j, i, maxGap)
    ensures SameGroup(h, i, j, maxGap) ==> h[j].noLoad
  {
  }

  lemma SpanRows(h: seq<Cycle>, s: Span, j: nat, maxGap: int)
    requires SpanOk(h, s, |h|, maxGap)
    ensures Within(j, s) ==> j < |h| && h[j].noLoad
  {
    assert Within(j, s) && j > s.lo ==> Linked(h, j, maxGap);
  }

  lemma SpanPeriodIs(h: seq<Cycle>, s: Span, i: nat, maxGap: int)
    requires SpanOk(h, s, |h|, maxGap) && i < |h| && h[i].noLoad && Within(i, s)
    ensures PeriodAt(h, i, maxGap) == SpanPeriod(h, s)
  {
    GroupIsSpan(h, s, i, maxGap);
    IntervalSize(s.lo, s.hi);
    var g := Interval(s.lo, s.hi);
    assert s.lo in g && s.hi - 1 in g;
    hide Members, Sustained, Linked;
    assert Least(g) == s.lo && Greatest(g) == s.hi - 1;
  }

  lemma SpanReported(h: seq<Cycle>, s: Span, maxGap: int, threshold: int)
    requires SpanOk(h, s, |h|, maxGap) && SpanPeriod(h, s).duration >= threshold
    ensures SpanPeriod(h, s) in HeadReport(h, maxGap, threshold)
  {
    hide PeriodAt, SpanPeriod, Linked, Sustained;
    SpanRows(h, s, s.lo, maxGap);
    SpanPeriodIs(h, s, s.lo, maxGap);
  }

  ghost predicate ComesFrom(h: seq<Cycle>, spans: seq<Span>, a: nat, p: Period) {
    a < |spans| && spans[a].lo < spans[a].hi <= |h| && p == SpanPeriod(h, spans[a])
  }

  lemma ReportedSpan(h: seq<Cycle>, spans: seq<Span>, maxGap: int, threshold: int, p: Period)
    requires ScanOk(h, spans, |h|, maxGap) && p in HeadReport(h, maxGap, threshold)
    ensures p.duration >= threshold && exists a :: ComesFrom(h, spans, a, p)
  {
    hide PeriodAt, SpanPeriod, SpanOk;
    var i: nat :| i < |h| && h[i].noLoad && PeriodAt(h, i, maxGap).duration >= threshold && p == PeriodAt(h, i, maxGap);
    var a :| 0 <= a < |spans| && Within(i, spans[a]);
    SpanShape(h, spans[a], |h|, maxGap);
    SpanPeriodIs(h, spans[a], i, maxGap);
    assert ComesFrom(h, spans, a, p);
  }

  lemma IslandIsSpan(h: seq<Cycle>, spans: seq<Span>, maxGap: int, threshold: int, p: Period)
    requires ScanOk(h, spans, |h|, maxGap)
    ensures p in HeadReport(h, maxGap, threshold) <==> p.duration >= threshold && exists a :: ComesFrom(h, spans, a, p)
  {
    hide HeadReport, SpanPeriod, SpanOk;
    if p in HeadReport(h, maxGap, threshold) {
      ReportedSpan(h, spans, maxGap, threshold, p);
    }
    if p.duration >= threshold && exists a :: ComesFrom(h, spans, a, p) {
      var a: nat :| ComesFrom(h, spans, a, p);
      SpanReported(h, spans[a], maxGap, threshold);
    }
  }

  // The gaps-and-islands query reports exactly the scan's maximal runs of at
  // least the threshold.
  lemma IslandsAreScan(h: seq<Cycle>, maxGap: int, threshold: int)
    ensures ScanOk(h, Scan(h, |h|, maxGap), |h|, maxGap)
    ensures forall p :: p in HeadReport(h, maxGap, threshold)
              <==> p.duration >= threshold && exists a :: ComesFrom(h, Scan(h, |h|, maxGap), a, p)
  {
    hide *;
    ScanLaw(h, |h|, maxGap);
    forall p ensures p in HeadReport(h, maxGap, threshold) <==>
        p.duration >= threshold && exists a :: ComesFrom(h, Scan(h, |h|, maxGap), a, p)
    {
      IslandIsSpan(h, Scan(h, |h|, maxGap), maxGap, threshold, p);
    }
  }

  // Ordered by start, the report is in scan order, and no two periods overlap.
  lemma StartsIncrease(h: seq<Cycle>, maxGap: int, a: nat, b: nat)
    requires Sorted(h) && a < b < |Scan(h, |h|, maxGap)|
    ensures var spans := Scan(h, |h|, maxGap);
            && spans[a].lo < spans[a].hi <= spans[b].lo < spans[b].hi <= |h|
            && SpanPeriod(h, spans[a]).end < SpanPeriod(h, spans[b]).start
  {
    ScanLaw(h, |h|, maxGap);
    hide Scan, SpanOk;
    var spans := Scan(h, |h|, maxGap);
    SpanShape(h, spans[a], |h|, maxGap);
    SpanShape(h, spans[b], |h|, maxGap);
  }

  /******* Summaries *******/

  datatype Reported = Reported(head: int, period: Period)

  datatype Total = Total(periods: nat, seconds: int)

  function SecondsOf(rows: seq<Reported>): int {
    if rows == [] then 0 else SecondsOf(rows[..|rows| - 1]) + rows[|rows| - 1].period.duration
  }

  function OfHead(rows: seq<Reported>, head: int): seq<Reported> {
    if rows == [] then []
    else OfHead(rows[..|rows| - 1], head) + (if rows[|rows| - 1].head == head then [rows[|rows| - 1]] else [])
  }

  ghost function TotalSeconds(perHead: map<int, Total>): int {
    if !exists h :: h in perHead then 0
    else
      var h :| h in perHead;
      perHead[h].seconds + TotalSeconds(perHead - {h})
  }

  lemma {:induction false} TotalTake(perHead: map<int, Total>, h: int)
    requires h in perHead
    ensures TotalSeconds(perHead) == perHead[h].seconds + TotalSeconds(perHead - {h})
    decreases |perHead|
  {
    var g :| g in perHead && TotalSeconds(perHead) == perHead[g].seconds + TotalSeconds(perHead - {g});
    if g != h {
      TotalTake(perHead - {g}, h);
      TotalTake(perHead - {h}, g);
      assert perHead - {g} - {h} == perHead - {h} - {g};
    }
  }

  lemma TotalPut(perHead: map<int, Total>, h: int, t: Total)
    ensures TotalSeconds(perHead[h := t]) == TotalSeconds(perHead) + t.seconds - At(perHead, h).seconds
  {
    TotalTake(perHead[h := t], h);
    assert perHead[h := t] - {h} == perHead - {h};
    if h in perHead {
      TotalTake(perHead, h);
    } else {
      assert perHead - {h} == perHead;
    }
  }

  // per_head.get(head, (0, 0))
  function At(perHead: map<int, Total>, head: int): Total {
    if head in perHead then perHead[head] else Total(0, 0)
  }

  ghost predicate Tallied(rows: seq<Reported>, perHead: map<int, Total>) {
    forall h :: At(perHead, h) == Total(|OfHead(rows, h)|, SecondsOf(OfHead(rows, h)))
  }

  lemma OfHeadStep(rows: seq<Reported>, r: Reported, h: int)
    ensures OfHead(rows + [r], h) == if r.head == h then OfHead(rows, h) + [r] else OfHead(rows, h)
  {
    assert (rows + [r])[..|rows|] == rows;
  }

  lemma SecondsStep(rows: seq<Reported>, r: Reported)
    ensures SecondsOf(rows + [r]) == SecondsOf(rows) + r.period.duration
  {
    assert (rows + [r])[..|rows|] == rows;
  }

  function Plus(t: Total, p: Period): Total {
    Total(t.periods + 1, t.seconds + p.duration)
  }

  lemma TalliedStep(rows: seq<Reported>, r: Reported, perHead: map<int, Total>)
    requires Tallied(rows, perHead)
    ensures Tallied(rows + [r], perHead[r.head := Plus(At(perHead, r.head), r.period)])
  {
    hide OfHead, SecondsOf;
    var after := perHead[r.head := Plus(At(perHead, r.head), r.period)];
    forall h ensures At(after, h) == Total(|OfHead(rows + [r], h)|, SecondsOf(OfHead(rows + [r], h))) {
      OfHeadStep(rows, r, h);
      SecondsStep(OfHead(rows, h), r);
      assert At(perHead, h) == Total(|OfHead(rows, h)|, SecondsOf(OfHead(rows, h)));
    }
  }

  ghost predicate HasHead(rows: seq<Reported>, h: int) {
    exists k :: 0 <= k < |rows| && rows[k].head == h
  }

  // The loop's state after a prefix of the rows.
  ghost predicate Summed(rows: seq<Reported>, perHead: map<int, Total>, totalIdle: int) {
    && Tallied(rows, perHead)
    && (forall h :: h in perHead <==> HasHead(rows, h))
    && totalIdle == SecondsOf(rows) == TotalSeconds(perHead)
  }

  lemma HeadStep(rows: seq<Reported>, r: Reported, h: int)
    ensures HasHead(rows + [r], h) <==> HasHead(rows, h) || h == r.head
  {
    var more := rows + [r];
    assert more[|rows|] == r;
    if HasHead(rows, h) {
      var k :| 0 <= k < |rows| && rows[k].head == h;
      assert more[k].head == h;
    }
  }

  lemma HeadsStep(rows: seq<Reported>, r: Reported, perHead: map<int, Total>, u: Total)
    requires forall h :: h in perHead <==> HasHead(rows, h)
    ensures forall h :: h in perHead[r.head := u] <==> HasHead(rows + [r], h)
  {
    hide HasHead;
    forall h ensures h in perHead[r.head := u] <==> HasHead(rows + [r], h) { HeadStep(rows, r, h); }
  }

  lemma SummedStep(rows: seq<Reported>, r: Reported, perHead: map<int, Total>, totalIdle: int)
    requires Summed(rows, perHead, totalIdle)
    ensures Summed(rows + [r], perHead[r.head := Plus(At(perHead, r.head), r.period)], totalIdle + r.period.duration)
  {
    hide Tallied, TotalSeconds, HasHead, SecondsOf, OfHead;
    SecondsStep(rows, r);
    TalliedStep(rows, r, perHead);
    TotalPut(perHead, r.head, Plus(At(perHead, r.head), r.period));
    HeadsStep(rows, r, perHead, Plus(At(perHead, r.head), r.period));
  }

  lemma NothingSummed()
    ensures Summed([], map[], 0)
  {
  }

  // Each head's total is over its own periods, every head with a period has one,
  // and the totals add up to the total idle time.
  method Summarise(rows: seq<Reported>) returns (perHead: map<int, Total>, totalIdle: int)
    ensures Tallied(rows, perHead)
    ensures forall h :: h in perHead <==> HasHead(rows, h)
    ensures totalIdle == SecondsOf(rows) == TotalSeconds(perHead)
  {
    hide Summed;
    perHead, totalIdle := map[], 0;
    NothingSummed();
    for i := 0 to |rows|
      invariant Summed(rows[..i], perHead, totalIdle)
    {
      var r := rows[i];
      assert rows[..i + 1] == rows[..i] + [r];
      SummedStep(rows[..i], r, perHead, totalIdle);
      perHead := perHead[r.head := Plus(At(perHead, r.head), r.period)];
      totalIdle := totalIdle + r.period.duration;
    }
    assert rows[..|rows|] == rows;
    SummedParts(rows, perHead, totalIdle);
  }

  lemma SummedParts(rows: seq<Reported>, perHead: map<int, Total>, totalIdle: int)
    requires Summed(rows, perHead, totalIdle)
    ensures Tallied(rows, perHead) && (forall h :: h in perHead <==> HasHead(rows, h))
    ensures totalIdle == SecondsOf(rows) == TotalSeconds(perHead)
  {
  }
}
