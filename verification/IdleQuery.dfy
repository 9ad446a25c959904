// The idle query as the database sees it: window functions over a set of rows of
// any number of heads, tied head by head to the ordered rows of module Idle.
module IdleQuery {
  import opened Protocol
  import opened Idle

  datatype Row = Row(head: int, ts: int, capSeq: int, noLoad: bool)

  // One machine's rows: head and time identify a row.
  ghost predicate Keyed(t: set<Row>) {
    forall a, b :: a in t && b in t && a.head == b.head && a.ts == b.ts ==> a == b
  }

  /******* The query *******/

  // q is at or before r in r's partition, ORDER BY ts, cap_seq.
  ghost predicate UpTo(q: Row, r: Row) {
    q.head == r.head && (q.ts < r.ts || (q.ts == r.ts && q.capSeq <= r.capSeq))
  }

  ghost function RowNumberAll(t: set<Row>, r: Row): nat {
    |set q | q in t && UpTo(q, r)|
  }

  ghost function RowNumberGroup(t: set<Row>, r: Row): nat {
    |set q | q in t && q.noLoad == r.noLoad && UpTo(q, r)|
  }

  ghost function IslandOf(t: set<Row>, r: Row): int {
    RowNumberAll(t, r) - RowNumberGroup(t, r)
  }

  // q is a no-load row of r's (head, island) partition.
  ghost predicate WithIsland(t: set<Row>, q: Row, r: Row) {
    q.noLoad && q.head == r.head && IslandOf(t, q) == IslandOf(t, r)
  }

  ghost predicate Precedes(t: set<Row>, q: Row, r: Row) {
    q in t && WithIsland(t, q, r) && UpTo(q, r) && q != r
  }

  ghost predicate IsLag(t: set<Row>, q: Row, r: Row) {
    Precedes(t, q, r) && forall o :: Precedes(t, o, r) ==> UpTo(o, q)
  }

  // CASE WHEN DATE_DIFF('second', LAG(ts), ts) > max_gap THEN 1 ELSE 0
  ghost predicate GapBefore(t: set<Row>, r: Row, maxGap: int) {
    exists q :: IsLag(t, q, r) && Seconds(q.ts, r.ts) > maxGap
  }

  // The running sum of gap_break over r's partition.
  ghost function SegmentOf(t: set<Row>, r: Row, maxGap: int): nat {
    |set q | q in t && WithIsland(t, q, r) && GapBefore(t, q, maxGap) && UpTo(q, r)|
  }

  ghost function GroupOf(t: set<Row>, r: Row, maxGap: int): set<Row> {
    set q | q in t && WithIsland(t, q, r) && SegmentOf(t, q, maxGap) == SegmentOf(t, r, maxGap)
  }

  // MIN(ts), MAX(ts), COUNT(*), and the seconds between.
  ghost predicate IsPeriod(g: set<Row>, p: Period) {
    && (exists a :: a in g && a.ts == p.start) && (exists b :: b in g && b.ts == p.end)
    && (forall q :: q in g ==> p.start <= q.ts <= p.end)
    && p.cycles == |g| && p.duration == Seconds(p.start, p.end)
  }

  ghost predicate Reports(t: set<Row>, maxGap: int, threshold: int, x: Reported) {
    exists r :: r in t && r.noLoad && r.head == x.head && IsPeriod(GroupOf(t, r, maxGap), x.period)
        && x.period.duration >= threshold
  }

  /******* One head's rows in order *******/

  ghost predicate Ascending(rows: seq<Row>) {
    forall i, j :: 0 <= i < j < |rows| ==> rows[i].ts < rows[j].ts
  }

  ghost predicate Holds(s: set<Row>, rows: seq<Row>) {
    forall r :: r in rows <==> r in s
  }

  ghost function HeadOf(t: set<Row>, head: int): set<Row> {
    set r | r in t && r.head == head
  }

  ghost predicate Lists(t: set<Row>, head: int, rows: seq<Row>) {
    Holds(HeadOf(t, head), rows) && Ascending(rows)
  }

  function Cycles(rows: seq<Row>): (h: seq<Cycle>)
    ensures |h| == |rows|
  {
    seq(|rows|, i requires 0 <= i < |rows| => Cycle(rows[i].ts, rows[i].noLoad))
  }

  lemma {:induction false} LatestRow(s: set<Row>)
    requires s != {}
    ensures exists m :: m in s && forall r :: r in s ==> r.ts <= m.ts
    decreases |s|
  {
    var a :| a in s;
    if s != {a} {
      LatestRow(s - {a});
      var x :| x in s - {a} && forall r :: r in s - {a} ==> r.ts <= x.ts;
      var m := if a.ts > x.ts then a else x;
      forall r | r in s ensures r.ts <= m.ts {
        assert r == a || r in s - {a};
      }
      assert m in s;
    }
  }

  lemma {:induction false} Sorts(s: set<Row>) returns (rows: seq<Row>)
    requires forall a, b :: a in s && b in s && a.ts == b.ts ==> a == b
    ensures Holds(s, rows) && Ascending(rows)
    decreases |s|
  {
    if s == {} {
      rows := [];
    } else {
      LatestRow(s);
      var m :| m in s && forall r :: r in s ==> r.ts <= m.ts;
      var rest := Sorts(s - {m});
      forall i | 0 <= i < |rest| ensures rest[i].ts < m.ts {
        assert rest[i] in rest;
      }
      rows := rest + [m];
    }
  }

  // Every head's rows can be listed.
  lemma HasListing(t: set<Row>, head: int) returns (rows: seq<Row>)
    requires Keyed(t)
    ensures Lists(t, head, rows)
  {
    rows := Sorts(HeadOf(t, head));
  }

  /******* Counting rows by position *******/

  ghost function CountIf(rows: seq<Row>, n: nat, f: Row -> bool): nat
    requires n <= |rows|
  {
    if n == 0 then 0 else CountIf(rows, n - 1, f) + if f(rows[n - 1]) then 1 else 0
  }

  // The rows before position n that satisfy f.
  ghost function Where(rows: seq<Row>, n: nat, f: Row -> bool): set<Row>
    requires n <= |rows|
  {
    if n == 0 then {} else Where(rows, n - 1, f) + (if f(rows[n - 1]) then {rows[n - 1]} else {})
  }

  ghost predicate At(rows: seq<Row>, j: nat, q: Row) {
    j < |rows| && rows[j] == q
  }

  lemma {:induction false} InWhere(rows: seq<Row>, n: nat, f: Row -> bool, q: Row)
    requires n <= |rows|
    ensures q in Where(rows, n, f) <==> f(q) && exists j: nat :: j < n && At(rows, j, q)
  {
    if n > 0 {
      InWhere(rows, n - 1, f, q);
      assert At(rows, n - 1, rows[n - 1]);
    }
  }

  // The row at position n is new.
  lemma NextIsNew(rows: seq<Row>, n: nat, f: Row -> bool)
    requires n < |rows| && Ascending(rows)
    ensures rows[n] !in Where(rows, n, f)
  {
    InWhere(rows, n, f, rows[n]);
    hide Where;
  }

  lemma {:induction false} WhereSize(rows: seq<Row>, n: nat, f: Row -> bool)
    requires n <= |rows| && Ascending(rows)
    ensures |Where(rows, n, f)| == CountIf(rows, n, f)
  {
    if n > 0 {
      hide Ascending;
      WhereSize(rows, n - 1, f);
      NextIsNew(rows, n - 1, f);
    }
  }

  // A row is at or before row i exactly when its position is.
  lemma UpToIs(t: set<Row>, head: int, rows: seq<Row>, i: nat, q: Row)
    requires Keyed(t) && Lists(t, head, rows) && i < |rows|
    ensures q in t && UpTo(q, rows[i]) <==> exists j: nat :: j < i + 1 && At(rows, j, q)
  {
    assert rows[i] in rows;
    if q in t && UpTo(q, rows[i]) {
      assert q in rows;
      var j :| 0 <= j < |rows| && rows[j] == q;
      assert j < i + 1 && At(rows, j, q);
    }
    if j: nat :| j < i + 1 && At(rows, j, q) {
      assert q in rows;
    }
  }

  lemma UpToWhere(t: set<Row>, head: int, rows: seq<Row>, i: nat, f: Row -> bool, q: Row)
    requires Keyed(t) && Lists(t, head, rows) && i < |rows|
    ensures q in Where(rows, i + 1, f) <==> q in t && f(q) && UpTo(q, rows[i])
  {
    hide Where, UpTo, Keyed, Lists, At;
    UpToIs(t, head, rows, i, q);
    InWhere(rows, i + 1, f, q);
  }

  lemma CountUpTo(t: set<Row>, head: int, rows: seq<Row>, i: nat, f: Row -> bool)
    requires Keyed(t) && Lists(t, head, rows) && i < |rows|
    ensures |set q | q in t && f(q) && UpTo(q, rows[i])| == CountIf(rows, i + 1, f)
  {
    hide Where, CountIf, UpTo, Keyed, Ascending, Holds, HeadOf, At;
    WhereSize(rows, i + 1, f);
    var ups := set q | q in t && f(q) && UpTo(q, rows[i]);
    forall q ensures q in ups <==> q in Where(rows, i + 1, f) {
      UpToWhere(t, head, rows, i, f, q);
    }
    assert ups == Where(rows, i + 1, f);
  }

  lemma {:induction false} CountClass(rows: seq<Row>, n: nat, b: bool)
    requires n <= |rows|
    ensures CountIf(rows, n, (q: Row) => q.noLoad == b) == Count(Cycles(rows), n, b)
    ensures CountIf(rows, n, (q: Row) => true) == n
  {
    if n > 0 {
      CountClass(rows, n - 1, b);
    }
  }

  /******* The window functions, row by row *******/

  lemma IslandIs(t: set<Row>, head: int, rows: seq<Row>, i: nat)
    requires Keyed(t) && Lists(t, head, rows) && i < |rows|
    ensures IslandOf(t, rows[i]) == Island(Cycles(rows), i)
  {
    var b := rows[i].noLoad;
    CountUpTo(t, head, rows, i, (q: Row) => true);
    CountUpTo(t, head, rows, i, (q: Row) => q.noLoad == b);
    CountClass(rows, i + 1, b);
    assert (set q | q in t && ((r: Row) => true)(q) && UpTo(q, rows[i])) == set q | q in t && UpTo(q, rows[i]);
    assert (set q | q in t && ((r: Row) => r.noLoad == b)(q) && UpTo(q, rows[i]))
        == set q | q in t && q.noLoad == b && UpTo(q, rows[i]);
  }

  lemma WithIslandIs(t: set<Row>, head: int, rows: seq<Row>, j: nat, i: nat)
    requires Keyed(t) && Lists(t, head, rows) && i < |rows| && j < |rows|
    ensures WithIsland(t, rows[j], rows[i]) <==> rows[j].noLoad && Island(Cycles(rows), j) == Island(Cycles(rows), i)
  {
    assert rows[i] in rows && rows[j] in rows;
    IslandIs(t, head, rows, i);
    IslandIs(t, head, rows, j);
    hide IslandOf, Island;
  }

  lemma Position(t: set<Row>, head: int, rows: seq<Row>, j: nat, i: nat)
    requires Keyed(t) && Lists(t, head, rows) && i < |rows| && j < |rows|
    ensures rows[j] in t && (UpTo(rows[j], rows[i]) <==> j <= i) && (rows[j] == rows[i] <==> j == i)
  {
    assert rows[i] in rows && rows[j] in rows;
    UpToIs(t, head, rows, i, rows[j]);
  }

  // What precedes a no-load row in its partition: the no-load rows reaching up to it.
  lemma PrecedesIs(t: set<Row>, head: int, rows: seq<Row>, j: nat, i: nat)
    requires Keyed(t) && Lists(t, head, rows) && i < |rows| && j < |rows| && rows[i].noLoad
    ensures Precedes(t, rows[j], rows[i]) <==> j < i && forall k :: j <= k <= i ==> Cycles(rows)[k].noLoad
  {
    var h := Cycles(rows);
    WithIslandIs(t, head, rows, j, i);
    Position(t, head, rows, j, i);
    hide WithIsland, Island, UpTo, Keyed;
    assert h[j].noLoad == rows[j].noLoad && h[i].noLoad;
    if j <= i && h[j].noLoad {
      SameIsland(h, j, i);
    }
  }

  lemma NoLagThere(t: set<Row>, head: int, rows: seq<Row>, i: nat, q: Row)
    requires Keyed(t) && Lists(t, head, rows) && i < |rows| && rows[i].noLoad && (i > 0 ==> !rows[i - 1].noLoad)
    ensures !Precedes(t, q, rows[i])
  {
    hide Precedes, Keyed;
    forall j: nat | j < |rows| ensures !Precedes(t, rows[j], rows[i]) {
      PrecedesIs(t, head, rows, j, i);
      assert i > 0 ==> !Cycles(rows)[i - 1].noLoad;
    }
    if q in rows {
      var j :| 0 <= j < |rows| && rows[j] == q;
    } else {
      assert rows[i] in rows;
      Unlisted(t, head, rows, i, q);
    }
  }

  lemma Unlisted(t: set<Row>, head: int, rows: seq<Row>, i: nat, q: Row)
    requires Lists(t, head, rows) && i < |rows| && rows[i] in rows && q !in rows
    ensures !Precedes(t, q, rows[i])
  {
  }

  lemma LagIs(t: set<Row>, head: int, rows: seq<Row>, i: nat, q: Row)
    requires Keyed(t) && Lists(t, head, rows) && i < |rows| && rows[i].noLoad
    ensures IsLag(t, q, rows[i]) <==> i > 0 && rows[i - 1].noLoad && q == rows[i - 1]
  {
    if i > 0 && rows[i - 1].noLoad {
      PreviousIsLag(t, head, rows, i);
      if IsLag(t, q, rows[i]) {
        LagUnique(t, q, rows[i - 1], rows[i]);
      }
    } else {
      NoLagThere(t, head, rows, i, q);
    }
    hide Precedes;
  }

  lemma PrecedesListed(t: set<Row>, head: int, rows: seq<Row>, i: nat, o: Row)
    requires Lists(t, head, rows) && i < |rows| && Precedes(t, o, rows[i])
    ensures o in rows
  {
    assert rows[i] in rows;
  }

  lemma PreviousIsLag(t: set<Row>, head: int, rows: seq<Row>, i: nat)
    requires Keyed(t) && Lists(t, head, rows) && 0 < i < |rows| && rows[i].noLoad && rows[i - 1].noLoad
    ensures IsLag(t, rows[i - 1], rows[i])
  {
    PrecedesIs(t, head, rows, i - 1, i);
    forall o | Precedes(t, o, rows[i]) ensures UpTo(o, rows[i - 1]) {
      PrecedesListed(t, head, rows, i, o);
      var j :| 0 <= j < |rows| && rows[j] == o;
      PrecedesIs(t, head, rows, j, i);
      Position(t, head, rows, j, i - 1);
    }
  }

  lemma LagUnique(t: set<Row>, a: Row, b: Row, r: Row)
    requires Keyed(t) && IsLag(t, a, r) && IsLag(t, b, r)
    ensures a == b
  {
    assert UpTo(a, b) && UpTo(b, a);
  }

  lemma GapIs(t: set<Row>, head: int, rows: seq<Row>, i: nat, maxGap: int)
    requires Keyed(t) && Lists(t, head, rows) && i < |rows| && rows[i].noLoad
    ensures GapBreak(Cycles(rows), i, maxGap) == if GapBefore(t, rows[i], maxGap) then 1 else 0
  {
    hide LagFrom, IsLag, Keyed, Lists;
    LagIsPrevious(Cycles(rows), i);
    if i > 0 && rows[i - 1].noLoad {
      LagIs(t, head, rows, i, rows[i - 1]);
    }
    if q :| IsLag(t, q, rows[i]) && Seconds(q.ts, rows[i].ts) > maxGap {
      LagIs(t, head, rows, i, q);
    }
  }

  lemma {:induction false} BreaksCounted(t: set<Row>, head: int, rows: seq<Row>, i: nat, n: nat, maxGap: int)
    requires Keyed(t) && Lists(t, head, rows) && i < |rows| && n <= |rows|
    ensures Breaks(Cycles(rows), Island(Cycles(rows), i), n, maxGap)
         == CountIf(rows, n, (q: Row) => WithIsland(t, q, rows[i]) && GapBefore(t, q, maxGap))
  {
    hide WithIsland, GapBefore, GapBreak, Island;
    if n > 0 {
      BreaksCounted(t, head, rows, i, n - 1, maxGap);
      WithIslandIs(t, head, rows, n - 1, i);
      if rows[n - 1].noLoad {
        GapIs(t, head, rows, n - 1, maxGap);
      }
    }
  }

  lemma SegmentIs(t: set<Row>, head: int, rows: seq<Row>, i: nat, maxGap: int)
    requires Keyed(t) && Lists(t, head, rows) && i < |rows|
    ensures SegmentOf(t, rows[i], maxGap) == Segment(Cycles(rows), i, maxGap)
  {
    hide WithIsland, GapBefore, Island, Breaks;
    var f := (q: Row) => WithIsland(t, q, rows[i]) && GapBefore(t, q, maxGap);
    CountUpTo(t, head, rows, i, f);
    BreaksCounted(t, head, rows, i, i + 1, maxGap);
    assert (set q | q in t && f(q) && UpTo(q, rows[i]))
        == set q | q in t && WithIsland(t, q, rows[i]) && GapBefore(t, q, maxGap) && UpTo(q, rows[i]);
  }

  ghost function Image(rows: seq<Row>, js: set<nat>): set<Row>
    requires forall j :: j in js ==> j < |rows|
  {
    set j | j in js :: rows[j]
  }

  lemma GroupIs(t: set<Row>, head: int, rows: seq<Row>, i: nat, maxGap: int)
    requires Keyed(t) && Lists(t, head, rows) && i < |rows| && rows[i].noLoad
    ensures GroupOf(t, rows[i], maxGap) == Image(rows, Members(Cycles(rows), i, maxGap))
  {
    hide WithIsland, SegmentOf, Segment, Island;
    SegmentIs(t, head, rows, i, maxGap);
    forall j: nat | j < |rows| ensures rows[j] in GroupOf(t, rows[i], maxGap) <==> j in Members(Cycles(rows), i, maxGap)
    {
      assert rows[j] in rows;
      SegmentIs(t, head, rows, j, maxGap);
      WithIslandIs(t, head, rows, j, i);
    }
    forall q | q in GroupOf(t, rows[i], maxGap) ensures q in rows { GroupListed(t, head, rows, i, maxGap, q); }
    forall q ensures q in GroupOf(t, rows[i], maxGap) <==> q in Image(rows, Members(Cycles(rows), i, maxGap)) {
      if q in GroupOf(t, rows[i], maxGap) {
        var j :| 0 <= j < |rows| && rows[j] == q;
      }
    }
  }

  lemma GroupListed(t: set<Row>, head: int, rows: seq<Row>, i: nat, maxGap: int, q: Row)
    requires Lists(t, head, rows) && i < |rows| && q in GroupOf(t, rows[i], maxGap)
    ensures q in rows
  {
    assert rows[i] in rows;
  }

  lemma {:induction false} ImageSize(rows: seq<Row>, js: set<nat>)
    requires (forall j :: j in js ==> j < |rows|) && Ascending(rows)
    ensures |Image(rows, js)| == |js|
    decreases |js|
  {
    if js == {} {
      assert Image(rows, js) == {};
    } else {
      var a :| a in js;
      ImageSize(rows, js - {a});
      assert Image(rows, js) == Image(rows, js - {a}) + {rows[a]};
    }
  }

  lemma PeriodIs(t: set<Row>, head: int, rows: seq<Row>, i: nat, maxGap: int, p: Period)
    requires Keyed(t) && Lists(t, head, rows) && i < |rows| && rows[i].noLoad
    ensures IsPeriod(GroupOf(t, rows[i], maxGap), p) <==> p == PeriodAt(Cycles(rows), i, maxGap)
  {
    var h, js := Cycles(rows), Members(Cycles(rows), i, maxGap);
    GroupIs(t, head, rows, i, maxGap);
    assert i in js && forall j :: j in js ==> j < |rows|;
    ImageSize(rows, js);
    assert Sorted(h);
    GroupTimes(h, js);
    hide Members, GroupOf;
    PeriodOfImage(rows, js, GroupPeriod(h, js), p);
  }

  // The least and greatest times of a set of rows are the period's ends.
  lemma PeriodOfImage(rows: seq<Row>, js: set<nat>, p: Period, q: Period)
    requires js != {} && (forall j :: j in js ==> j < |rows|) && Sorted(Cycles(rows))
    requires p == GroupPeriod(Cycles(rows), js) && |Image(rows, js)| == |js|
    ensures IsPeriod(Image(rows, js), q) <==> q == p
  {
    var g := Image(rows, js);
    var lo, hi := Least(js), Greatest(js);
    GroupTimes(Cycles(rows), js);
    assert rows[lo] in g && rows[hi] in g;
    assert rows[lo].ts == p.start && rows[hi].ts == p.end;
    forall r | r in g ensures p.start <= r.ts <= p.end {
      var j :| j in js && rows[j] == r;
      assert Cycles(rows)[j].ts == r.ts;
    }
    hide Least, Greatest;
  }

  /******* The query against the scan *******/

  lemma ReportsHead(t: set<Row>, head: int, rows: seq<Row>, maxGap: int, threshold: int, p: Period)
    requires Keyed(t) && Lists(t, head, rows)
    ensures Reports(t, maxGap, threshold, Reported(head, p)) <==> p in HeadReport(Cycles(rows), maxGap, threshold)
  {
    hide GroupOf, IsPeriod, PeriodAt;
    var h := Cycles(rows);
    forall i: nat | i < |rows| && rows[i].noLoad
      ensures IsPeriod(GroupOf(t, rows[i], maxGap), p) <==> p == PeriodAt(h, i, maxGap)
    {
      PeriodIs(t, head, rows, i, maxGap, p);
    }
    if Reports(t, maxGap, threshold, Reported(head, p)) {
      var r :| r in t && r.noLoad && r.head == head && IsPeriod(GroupOf(t, r, maxGap), p) && p.duration >= threshold;
      assert r in rows;
      var i :| 0 <= i < |rows| && rows[i] == r;
      assert p == PeriodAt(h, i, maxGap);
    }
    if p in HeadReport(h, maxGap, threshold) {
      var i: nat :| i < |h| && h[i].noLoad && PeriodAt(h, i, maxGap).duration >= threshold
          && p == PeriodAt(h, i, maxGap);
      assert rows[i] in rows;
    }
  }

  // Over any table, head by head: the query reports exactly the maximal
  // sustained runs of at least the threshold that one scan of the head finds.
  lemma QueryIsScan(t: set<Row>, head: int, rows: seq<Row>, maxGap: int, threshold: int)
    requires Keyed(t) && Lists(t, head, rows)
    ensures var h := Cycles(rows);
            && ScanOk(h, Scan(h, |h|, maxGap), |h|, maxGap)
            && forall p :: Reports(t, maxGap, threshold, Reported(head, p))
                 <==> p.duration >= threshold && exists a :: ComesFrom(h, Scan(h, |h|, maxGap), a, p)
  {
    hide *;
    var h := Cycles(rows);
    IslandsAreScan(h, maxGap, threshold);
    forall p ensures Reports(t, maxGap, threshold, Reported(head, p)) <==> p in HeadReport(h, maxGap, threshold) {
      ReportsHead(t, head, rows, maxGap, threshold, p);
    }
  }

  // Rows i to j are a whole idle period: no load throughout, no gap too long
  // between neighbours, and no row on either side that would still belong to it.
  ghost predicate IdlePeriod(rows: seq<Row>, maxGap: int, threshold: int, i: int, j: int, p: Period) {
    && 0 <= i <= j < |rows|
    && (forall k :: i <= k <= j ==> rows[k].noLoad)
    && (forall k :: i < k <= j ==> rows[k].ts / 1_000_000 - rows[k - 1].ts / 1_000_000 <= maxGap)
    && (i > 0 && rows[i - 1].noLoad ==> rows[i].ts / 1_000_000 - rows[i - 1].ts / 1_000_000 > maxGap)
    && (j + 1 < |rows| && rows[j + 1].noLoad ==> rows[j + 1].ts / 1_000_000 - rows[j].ts / 1_000_000 > maxGap)
    && p.start == rows[i].ts && p.end == rows[j].ts && p.cycles == j - i + 1
    && p.duration == p.end / 1_000_000 - p.start / 1_000_000 && p.duration >= threshold
  }

  lemma SecondsAre()
    ensures forall a, b :: Seconds(a, b) == b / 1_000_000 - a / 1_000_000
  {
  }

  // The neighbours of a span and of a whole period, by the scan's own test.
  lemma SpanLinks(h: seq<Cycle>, s: Span, maxGap: int)
    requires s.lo < s.hi <= |h| && SpanOk(h, s, |h|, maxGap)
    ensures forall k :: s.lo < k < s.hi ==> Linked(h, k, maxGap)
    ensures s.lo > 0 ==> !Linked(h, s.lo, maxGap)
    ensures s.hi < |h| ==> !Linked(h, s.hi, maxGap)
    ensures forall k :: s.lo <= k < s.hi ==> h[k].noLoad
  {
    forall k | s.lo <= k < s.hi ensures h[k].noLoad {
      if k > s.lo { assert Linked(h, k, maxGap); }
    }
  }

  lemma PeriodLinks(rows: seq<Row>, maxGap: int, threshold: int, i: int, j: int, p: Period)
    requires IdlePeriod(rows, maxGap, threshold, i, j, p)
    ensures var h := Cycles(rows);
            && (forall k :: i < k <= j ==> Linked(h, k, maxGap))
            && (i > 0 ==> !Linked(h, i, maxGap)) && (j + 1 < |h| ==> !Linked(h, j + 1, maxGap))
            && p == SpanPeriod(h, Span(i, j + 1)) && p.duration >= threshold && h[i].noLoad
  {
    SecondsAre();
    hide Seconds;
  }

  lemma SpanIsPeriod(rows: seq<Row>, maxGap: int, threshold: int, s: Span, p: Period)
    requires s.lo < s.hi <= |rows| && SpanOk(Cycles(rows), s, |rows|, maxGap)
    requires p == SpanPeriod(Cycles(rows), s) && p.duration >= threshold
    ensures IdlePeriod(rows, maxGap, threshold, s.lo, s.hi - 1, p)
  {
    var h := Cycles(rows);
    SecondsAre();
    SpanLinks(h, s, maxGap);
    hide Seconds, SpanOk;
    forall k | s.lo <= k < s.hi ensures rows[k].noLoad { assert h[k].noLoad; }
    forall k | s.lo < k < s.hi ensures rows[k].ts / 1_000_000 - rows[k - 1].ts / 1_000_000 <= maxGap {
      assert Linked(h, k, maxGap);
    }
  }

  // A whole idle period is the span that covers its first row.
  lemma PeriodIsSpan(rows: seq<Row>, maxGap: int, threshold: int, i: nat, j: nat, p: Period, s: Span)
    requires IdlePeriod(rows, maxGap, threshold, i, j, p) && i <= j < |rows|
    requires s.lo < s.hi <= |rows| && SpanOk(Cycles(rows), s, |rows|, maxGap) && s.lo <= i < s.hi
    ensures s.lo == i && s.hi == j + 1 && p == SpanPeriod(Cycles(rows), s)
  {
    hide *;
    SpanLinks(Cycles(rows), s, maxGap);
    PeriodLinks(rows, maxGap, threshold, i, j, p);
    assert s.lo == i && s.hi == j + 1;
  }

  // What is reported for a head: its whole idle periods of at least the
  // threshold, said of the head's rows alone.
  lemma ReportedIff(t: set<Row>, head: int, rows: seq<Row>, maxGap: int, threshold: int, p: Period)
    requires Keyed(t) && Lists(t, head, rows)
    ensures Reports(t, maxGap, threshold, Reported(head, p))
            <==> exists i, j :: IdlePeriod(rows, maxGap, threshold, i, j, p)
  {
    var h := Cycles(rows);
    var spans := Scan(h, |h|, maxGap);
    hide *;
    QueryIsScan(t, head, rows, maxGap, threshold);
    if Reports(t, maxGap, threshold, Reported(head, p)) {
      var a: nat :| ComesFrom(h, spans, a, p);
      SpanReported(rows, maxGap, threshold, spans, a, p);
    }
    if i, j :| IdlePeriod(rows, maxGap, threshold, i, j, p) {
      PeriodReported(rows, maxGap, threshold, spans, i, j, p);
    }
  }

  lemma SpanReported(rows: seq<Row>, maxGap: int, threshold: int, spans: seq<Span>, a: nat, p: Period)
    requires ScanOk(Cycles(rows), spans, |rows|, maxGap) && ComesFrom(Cycles(rows), spans, a, p)
            && p.duration >= threshold
    ensures exists i, j :: IdlePeriod(rows, maxGap, threshold, i, j, p)
  {
    assert SpanOk(Cycles(rows), spans[a], |rows|, maxGap);
    hide SpanOk, IdlePeriod, Cycles, SpanPeriod, Covered, Apart;
    SpanIsPeriod(rows, maxGap, threshold, spans[a], p);
  }

  lemma PeriodReported(rows: seq<Row>, maxGap: int, threshold: int, spans: seq<Span>, i: int, j: int, p: Period)
    requires ScanOk(Cycles(rows), spans, |rows|, maxGap) && IdlePeriod(rows, maxGap, threshold, i, j, p)
    ensures p.duration >= threshold && exists a :: ComesFrom(Cycles(rows), spans, a, p)
  {
    FirstIdle(rows, maxGap, threshold, i, j, p);
    var h := Cycles(rows);
    assert Covered(h, spans, |rows|) && h[i].noLoad;
    var a: nat :| a < |spans| && Within(i, spans[a]);
    assert SpanOk(h, spans[a], |h|, maxGap);
    SpanFits(h, spans[a], |h|, maxGap);
    hide SpanOk, IdlePeriod, Cycles, SpanPeriod, Covered, Apart;
    PeriodIsSpan(rows, maxGap, threshold, i, j, p, spans[a]);
    assert ComesFrom(h, spans, a, p);
  }

  lemma FirstIdle(rows: seq<Row>, maxGap: int, threshold: int, i: int, j: int, p: Period)
    requires IdlePeriod(rows, maxGap, threshold, i, j, p)
    ensures 0 <= i <= j < |rows| && Cycles(rows)[i].noLoad && p.duration >= threshold
  {
  }

  lemma SpanFits(h: seq<Cycle>, s: Span, n: nat, maxGap: int)
    requires n <= |h| && SpanOk(h, s, n, maxGap)
    ensures s.lo < s.hi <= n
  {
  }

  /******* The summaries against the scan *******/

  ghost predicate SpansFit(h: seq<Cycle>, spans: seq<Span>) {
    forall a :: 0 <= a < |spans| ==> spans[a].lo < spans[a].hi <= |h|
  }

  function Passing(head: int, p: Period, threshold: int): seq<Reported> {
    if p.duration >= threshold then [Reported(head, p)] else []
  }

  // The spans of a head that the threshold lets through, in scan order.
  ghost function Qualifying(head: int, h: seq<Cycle>, spans: seq<Span>, threshold: int): seq<Reported>
    requires SpansFit(h, spans)
  {
    if spans == [] then []
    else
      var n := |spans| - 1;
      Qualifying(head, h, spans[..n], threshold) + Passing(head, SpanPeriod(h, spans[n]), threshold)
  }

  lemma ScanShapes(h: seq<Cycle>, maxGap: int)
    ensures SpansFit(h, Scan(h, |h|, maxGap))
  {
    ScanLaw(h, |h|, maxGap);
    var spans := Scan(h, |h|, maxGap);
    hide Scan, SpanOk;
    forall a | 0 <= a < |spans| ensures spans[a].lo < spans[a].hi <= |h| { SpanShape(h, spans[a], |h|, maxGap); }
  }

  // What one scan of a head's rows reports.
  ghost function ScanReport(head: int, rows: seq<Row>, maxGap: int, threshold: int): seq<Reported> {
    var h := Cycles(rows);
    ScanShapes(h, maxGap);
    Qualifying(head, h, Scan(h, |h|, maxGap), threshold)
  }

  ghost predicate StartsRise(xs: seq<Reported>) {
    forall i, j :: 0 <= i < j < |xs| ==> xs[i].period.start < xs[j].period.start
  }

  ghost predicate InSpans(h: seq<Cycle>, spans: seq<Span>, threshold: int, p: Period) {
    p.duration >= threshold && exists a :: ComesFrom(h, spans, a, p)
  }

  lemma {:induction false} QualifyingLaw(head: int, h: seq<Cycle>, spans: seq<Span>, threshold: int, x: Reported)
    requires SpansFit(h, spans)
    ensures x in Qualifying(head, h, spans, threshold) <==> x.head == head && InSpans(h, spans, threshold, x.period)
  {
    hide SpanPeriod;
    if spans != [] {
      var n := |spans| - 1;
      QualifyingLaw(head, h, spans[..n], threshold, x);
      if a: nat :| ComesFrom(h, spans[..n], a, x.period) {
        assert ComesFrom(h, spans, a, x.period);
      }
      if a: nat :| ComesFrom(h, spans, a, x.period) {
        assert a == n || ComesFrom(h, spans[..n], a, x.period);
      }
      assert ComesFrom(h, spans, n, SpanPeriod(h, spans[n]));
    }
  }

  ghost predicate SpansRise(h: seq<Cycle>, spans: seq<Span>)
    requires SpansFit(h, spans)
  {
    forall a, b :: 0 <= a < b < |spans| ==> SpanPeriod(h, spans[a]).start < SpanPeriod(h, spans[b]).start
  }

  lemma {:induction false} QualifyingRises(head: int, h: seq<Cycle>, spans: seq<Span>, threshold: int)
    requires SpansFit(h, spans)
    requires SpansRise(h, spans)
    ensures StartsRise(Qualifying(head, h, spans, threshold))
  {
    if spans != [] {
      var n := |spans| - 1;
      QualifyingRises(head, h, spans[..n], threshold);
      var before := Qualifying(head, h, spans[..n], threshold);
      hide SpanPeriod, Qualifying;
      forall i | 0 <= i < |before| ensures before[i].period.start < SpanPeriod(h, spans[n]).start {
        QualifyingLaw(head, h, spans[..n], threshold, before[i]);
        assert before[i] in before;
        var a: nat :| ComesFrom(h, spans[..n], a, before[i].period);
        assert spans[..n][a] == spans[a];
      }
      QualifyingStep(head, h, spans, threshold);
    }
  }

  lemma QualifyingStep(head: int, h: seq<Cycle>, spans: seq<Span>, threshold: int)
    requires spans != [] && SpansFit(h, spans)
    ensures Qualifying(head, h, spans, threshold)
         == Qualifying(head, h, spans[..|spans| - 1], threshold)
             + Passing(head, SpanPeriod(h, spans[|spans| - 1]), threshold)
  {
  }

  // The query's answer as a list: each row once, ORDER BY head_id, start.
  ghost predicate IsReport(t: set<Row>, maxGap: int, threshold: int, report: seq<Reported>) {
    && (forall x :: x in report <==> Reports(t, maxGap, threshold, x))
    && (forall i, j :: 0 <= i < j < |report| ==> report[i] != report[j] && InOrder(report[i], report[j]))
  }

  ghost predicate InOrder(x: Reported, y: Reported) {
    x.head < y.head || (x.head == y.head && x.period.start <= y.period.start)
  }

  lemma {:induction false} OfHeadMember(report: seq<Reported>, head: int, x: Reported)
    ensures x in OfHead(report, head) <==> x in report && x.head == head
  {
    if report != [] {
      OfHeadMember(report[..|report| - 1], head, x);
      assert report == report[..|report| - 1] + [report[|report| - 1]];
    }
  }

  ghost predicate StartsDiffer(report: seq<Reported>) {
    forall i, j :: 0 <= i < j < |report| ==>
        && InOrder(report[i], report[j])
        && (report[i].head == report[j].head ==> report[i].period.start != report[j].period.start)
  }

  lemma {:induction false} OfHeadRises(report: seq<Reported>, head: int)
    requires StartsDiffer(report)
    ensures StartsRise(OfHead(report, head))
  {
    if report != [] {
      var n := |report| - 1;
      OfHeadRises(report[..n], head);
      var before := OfHead(report[..n], head);
      forall i | 0 <= i < |before| && report[n].head == head ensures before[i].period.start < report[n].period.start {
        OfHeadMember(report[..n], head, before[i]);
        assert before[i] in before;
        var k :| 0 <= k < n && report[..n][k] == before[i];
        assert report[k] == before[i];
      }
    }
  }

  // Two rising lists of the same rows are the same list.
  lemma {:induction false} RisingUnique(xs: seq<Reported>, ys: seq<Reported>)
    requires StartsRise(xs) && StartsRise(ys) && forall x :: x in xs <==> x in ys
    ensures xs == ys
    decreases |xs|
  {
    assert ys != [] ==> ys[0] in ys;
    assert xs != [] ==> xs[0] in xs;
    if xs != [] {
      var m, n := |xs| - 1, |ys| - 1;
      SameLast(xs, ys);
      forall x ensures x in xs[..m] <==> x in ys[..n] {
        InFront(xs, x);
        InFront(ys, x);
      }
      RisingUnique(xs[..m], ys[..n]);
      assert xs == xs[..m] + [xs[m]] && ys == ys[..n] + [ys[n]];
    }
  }

  lemma InFront(xs: seq<Reported>, x: Reported)
    requires StartsRise(xs) && xs != []
    ensures x in xs[..|xs| - 1] <==> x in xs && x != xs[|xs| - 1]
  {
    assert xs == xs[..|xs| - 1] + [xs[|xs| - 1]];
  }

  lemma SameLast(xs: seq<Reported>, ys: seq<Reported>)
    requires StartsRise(xs) && StartsRise(ys) && xs != [] && ys != [] && forall x :: x in xs <==> x in ys
    ensures xs[|xs| - 1] == ys[|ys| - 1]
  {
    var x, y := xs[|xs| - 1], ys[|ys| - 1];
    assert x in xs && y in ys;
    var i :| 0 <= i < |ys| && ys[i] == x;
    var j :| 0 <= j < |xs| && xs[j] == y;
  }

  lemma ScanReportLaw(t: set<Row>, head: int, rows: seq<Row>, maxGap: int, threshold: int, x: Reported)
    requires Keyed(t) && Lists(t, head, rows)
    ensures x in ScanReport(head, rows, maxGap, threshold) <==> x.head == head && Reports(t, maxGap, threshold, x)
  {
    hide Keyed, Lists, Reports, Scan, Qualifying, ScanOk;
    var h := Cycles(rows);
    ScanShapes(h, maxGap);
    QualifyingLaw(head, h, Scan(h, |h|, maxGap), threshold, x);
    QueryIsScan(t, head, rows, maxGap, threshold);
    if x.head == head {
      assert x == Reported(head, x.period);
    }
  }

  lemma ScanReportRises(t: set<Row>, head: int, rows: seq<Row>, maxGap: int, threshold: int)
    requires Lists(t, head, rows)
    ensures StartsRise(ScanReport(head, rows, maxGap, threshold))
  {
    var h := Cycles(rows);
    ScanShapes(h, maxGap);
    assert Sorted(h);
    var spans := Scan(h, |h|, maxGap);
    hide Scan, Qualifying, SpanPeriod, StartsRise;
    forall a, b | 0 <= a < b < |spans| ensures SpanPeriod(h, spans[a]).start < SpanPeriod(h, spans[b]).start {
      StartsIncrease(h, maxGap, a, b);
      StartBeforeEnd(h, spans[a]);
    }
    QualifyingRises(head, h, spans, threshold);
  }

  lemma StartBeforeEnd(h: seq<Cycle>, s: Span)
    requires Sorted(h) && s.lo < s.hi <= |h|
    ensures SpanPeriod(h, s).start <= SpanPeriod(h, s).end
  {
  }

  // A head's rows of the report start at different times.
  lemma ReportStartsDiffer(t: set<Row>, maxGap: int, threshold: int, report: seq<Reported>)
    requires Keyed(t) && IsReport(t, maxGap, threshold, report)
    ensures StartsDiffer(report)
  {
    forall i, j | 0 <= i < j < |report| && report[i].head == report[j].head
      ensures report[i].period.start != report[j].period.start
    {
      var x, y := report[i], report[j];
      assert x in report && y in report;
      var rows := HasListing(t, x.head);
      hide Keyed, Reports, ScanReport;
      ScanReportLaw(t, x.head, rows, maxGap, threshold, x);
      ScanReportLaw(t, x.head, rows, maxGap, threshold, y);
      ScanReportRises(t, x.head, rows, maxGap, threshold);
      var k :| 0 <= k < |ScanReport(x.head, rows, maxGap, threshold)|
          && ScanReport(x.head, rows, maxGap, threshold)[k] == x;
      var l :| 0 <= l < |ScanReport(x.head, rows, maxGap, threshold)|
          && ScanReport(x.head, rows, maxGap, threshold)[l] == y;
    }
  }

  // Every table has its report, and the report is a list without repetition in
  // the order of heads and, within a head, of starts.
  lemma ReportExists(t: set<Row>, maxGap: int, threshold: int) returns (report: seq<Reported>)
    requires Keyed(t)
    ensures IsReport(t, maxGap, threshold, report)
    ensures forall i, j :: 0 <= i < j < |report| ==>
              && report[i].head <= report[j].head
              && (report[i].head == report[j].head ==> report[i].period.start < report[j].period.start)
  {
    var heads := set r | r in t :: r.head;
    report := HeadsReport(t, heads, maxGap, threshold);
    hide Keyed;
    forall x ensures x in report <==> Reports(t, maxGap, threshold, x) {
      if Reports(t, maxGap, threshold, x) {
        assert x.head in heads;
      }
    }
    RisesInOrder(report);
  }

  // In the order of heads, then of starts.
  ghost predicate Rises(report: seq<Reported>) {
    forall i, j :: 0 <= i < j < |report| ==>
      report[i].head < report[j].head
      || (report[i].head == report[j].head && report[i].period.start < report[j].period.start)
  }

  lemma RisesInOrder(report: seq<Reported>)
    requires Rises(report)
    ensures forall i, j :: 0 <= i < j < |report| ==> report[i] != report[j] && InOrder(report[i], report[j])
  {
  }

  lemma {:induction false} GreatestHead(heads: set<int>) returns (m: int)
    requires exists h :: h in heads
    ensures m in heads && forall h :: h in heads ==> h <= m
    decreases |heads|
  {
    var a: int :| a in heads;
    m := a;
    var rest := heads - {a};
    assert forall g :: g in heads ==> g == a || g in rest;
    if h: int :| h in rest {
      var n := GreatestHead(rest);
      m := if n > a then n else a;
    }
  }

  lemma {:induction false} HeadsReport(t: set<Row>, heads: set<int>, maxGap: int, threshold: int)
    returns (report: seq<Reported>)
    requires Keyed(t)
    ensures forall x :: x in report <==> x.head in heads && Reports(t, maxGap, threshold, x)
    ensures Rises(report)
    decreases |heads|
  {
    report := [];
    if h: int :| h in heads {
      hide Keyed, Reports, Lists;
      var m := GreatestHead(heads);
      var before := HeadsReport(t, heads - {m}, maxGap, threshold);
      var rows := HasListing(t, m);
      var last := ScanReport(m, rows, maxGap, threshold);
      hide ScanReport;
      forall x ensures x in last <==> x.head == m && Reports(t, maxGap, threshold, x) {
        ScanReportLaw(t, m, rows, maxGap, threshold, x);
      }
      ScanReportRises(t, m, rows, maxGap, threshold);
      report := before + last;
      RisesOn(before, last, m);
    }
  }

  lemma RisesOn(before: seq<Reported>, last: seq<Reported>, m: int)
    requires Rises(before) && StartsRise(last)
    requires forall x :: x in last ==> x.head == m
    requires forall x :: x in before ==> x.head < m
    ensures Rises(before + last)
  {
    assert forall i :: 0 <= i < |before| ==> before[i] in before;
    assert forall i :: 0 <= i < |last| ==> last[i] in last;
  }

  // The report's rows of a head are that head's scan, in order.
  lemma HeadIsScan(t: set<Row>, head: int, rows: seq<Row>, maxGap: int, threshold: int, report: seq<Reported>)
    requires Keyed(t) && Lists(t, head, rows) && IsReport(t, maxGap, threshold, report)
    ensures OfHead(report, head) == ScanReport(head, rows, maxGap, threshold)
  {
    ReportStartsDiffer(t, maxGap, threshold, report);
    OfHeadRises(report, head);
    ScanReportRises(t, head, rows, maxGap, threshold);
    hide Keyed, Lists, Reports, ScanReport, OfHead, StartsRise;
    forall x ensures x in OfHead(report, head) <==> x in ScanReport(head, rows, maxGap, threshold) {
      OfHeadMember(report, head, x);
      ScanReportLaw(t, head, rows, maxGap, threshold, x);
    }
    RisingUnique(OfHead(report, head), ScanReport(head, rows, maxGap, threshold));
  }

  ghost predicate Listing(t: set<Row>, rows: map<int, seq<Row>>) {
    && (forall r :: r in t ==> r.head in rows)
    && (forall head :: head in rows ==> Lists(t, head, rows[head]))
  }

  // Each head's entry as its scan gives it: how many runs reach the threshold and
  // how long they are together.
  ghost function ScanTotals(rows: map<int, seq<Row>>, maxGap: int, threshold: int): map<int, Total> {
    map head | head in rows && ScanReport(head, rows[head], maxGap, threshold) != [] ::
      Total(|ScanReport(head, rows[head], maxGap, threshold)|,
            SecondsOf(ScanReport(head, rows[head], maxGap, threshold)))
  }

  // The summaries of the report: `by_head` holds exactly the scans' totals, and
  // `total_idle_seconds` is the sum over the heads of the durations of their
  // runs of at least the threshold.
  method SummariseReport(ghost t: set<Row>, ghost rows: map<int, seq<Row>>, ghost maxGap: int, ghost threshold: int,
                         report: seq<Reported>)
    returns (perHead: map<int, Total>, totalIdle: int)
    requires Keyed(t) && Listing(t, rows) && IsReport(t, maxGap, threshold, report)
    ensures perHead == ScanTotals(rows, maxGap, threshold)
    ensures totalIdle == SecondsOf(report) == TotalSeconds(ScanTotals(rows, maxGap, threshold))
  {
    perHead, totalIdle := Summarise(report);
    TotalsAreScans(t, rows, maxGap, threshold, report, perHead);
  }

  lemma TotalsAreScans(t: set<Row>, rows: map<int, seq<Row>>, maxGap: int, threshold: int, report: seq<Reported>,
                       perHead: map<int, Total>)
    requires Keyed(t) && Listing(t, rows) && IsReport(t, maxGap, threshold, report)
    requires Tallied(report, perHead) && forall h :: h in perHead <==> HasHead(report, h)
    ensures perHead == ScanTotals(rows, maxGap, threshold)
  {
    hide Keyed, ScanReport, Reports, OfHead, SecondsOf;
    forall head ensures head in perHead <==> head in ScanTotals(rows, maxGap, threshold) {
      HeadsReported(t, rows, maxGap, threshold, report, head);
    }
    forall head | head in perHead ensures perHead[head] == ScanTotals(rows, maxGap, threshold)[head] {
      HeadsReported(t, rows, maxGap, threshold, report, head);
      HeadIsScan(t, head, rows[head], maxGap, threshold, report);
      assert Idle.At(perHead, head) == Total(|OfHead(report, head)|, SecondsOf(OfHead(report, head)));
    }
  }

  lemma HeadsReported(t: set<Row>, rows: map<int, seq<Row>>, maxGap: int, threshold: int, report: seq<Reported>,
                      head: int)
    requires Keyed(t) && Listing(t, rows) && IsReport(t, maxGap, threshold, report)
    ensures HasHead(report, head) <==> head in rows && ScanReport(head, rows[head], maxGap, threshold) != []
  {
    hide Keyed, ScanReport, OfHead;
    if HasHead(report, head) {
      var k :| 0 <= k < |report| && report[k].head == head;
      var x := report[k];
      assert x in report;
      OfHeadMember(report, head, x);
      assert head in rows;
    }
    if head in rows {
      HeadIsScan(t, head, rows[head], maxGap, threshold, report);
      if OfHead(report, head) != [] {
        OfHeadMember(report, head, OfHead(report, head)[0]);
      }
    }
  }
}
