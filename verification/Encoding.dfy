// The event stream as an encoding of the counters: what can be read back.
module Encoding {
  import opened Extractor

  /******* Run-length collapse *******/

  // Remove adjacent repetitions.
  function Collapse(xs: seq<int>): (r: seq<int>)
    ensures xs != [] ==> r != [] && r[0] == xs[0] && r[|r| - 1] == xs[|xs| - 1]
    ensures forall k :: 0 < k < |r| ==> r[k - 1] != r[k]
  {
    if |xs| <= 1 then xs
    else
      var n := |xs| - 1;
      Collapse(xs[..n]) + (if xs[n] == xs[n - 1] then [] else [xs[n]])
  }

  function Column(rows: seq<RawRow>, heads: nat, h: nat): seq<int>
    requires Shaped(rows, heads) && h < heads
  {
    seq(|rows|, i requires 0 <= i < |rows| => rows[i].count[h])
  }

  // The events of one head, in stream order.
  function Trail(events: seq<Event>, h: nat): seq<Event> {
    if events == [] then []
    else Trail(events[..|events| - 1], h) + (if events[|events| - 1].head == h + 1 then [events[|events| - 1]] else [])
  }

  function CapSeqs(events: seq<Event>): seq<int> {
    seq(|events|, k requires 0 <= k < |events| => events[k].capSeq)
  }

  lemma {:induction false} TrailAppend(xs: seq<Event>, ys: seq<Event>, h: nat)
    ensures Trail(xs + ys, h) == Trail(xs, h) + Trail(ys, h)
  {
    if ys == [] {
      assert xs + ys == xs;
    } else {
      var n := |ys| - 1;
      assert (xs + ys)[..|xs + ys| - 1] == xs + ys[..n];
      TrailAppend(xs, ys[..n], h);
    }
  }

  // A row emits at most one event per head, and only for a change.
  lemma {:induction false} RowTrail(lang: Dialect, prev: seq<int>, row: RawRow, k: nat, h: nat)
    requires k <= |prev| && k <= |row.count| && k <= |row.torque| && k <= |row.status|
    ensures Trail(RowEvents(lang, prev, row, k), h)
         == if h < k && row.count[h] != prev[h] then [MakeEvent(lang, row, h, prev[h])] else []
  {
    hide MakeEvent, RowEvents, Trail;
    if k > 0 {
      RowTrail(lang, prev, row, k - 1, h);
      RowEventsStep(lang, prev, row, k - 1);
      if row.count[k - 1] != prev[k - 1] {
        HeadOf(lang, row, k - 1, prev[k - 1]);
        TrailSnoc(RowEvents(lang, prev, row, k - 1), MakeEvent(lang, row, k - 1, prev[k - 1]), h);
      }
    } else {
      NoRowEvents(lang, prev, row, h);
    }
  }

  lemma NoRowEvents(lang: Dialect, prev: seq<int>, row: RawRow, h: nat)
    ensures RowEvents(lang, prev, row, 0) == [] && Trail([], h) == []
  {
  }

  lemma RowEventsStep(lang: Dialect, prev: seq<int>, row: RawRow, k: nat)
    requires k < |prev| && k < |row.count| && k < |row.torque| && k < |row.status|
    ensures row.count[k] == prev[k] ==> RowEvents(lang, prev, row, k + 1) == RowEvents(lang, prev, row, k)
    ensures row.count[k] != prev[k] ==>
            RowEvents(lang, prev, row, k + 1) == RowEvents(lang, prev, row, k) + [MakeEvent(lang, row, k, prev[k])]
  {
  }

  lemma HeadOf(lang: Dialect, row: RawRow, h: nat, prev: int)
    requires h < |row.count| && h < |row.torque| && h < |row.status|
    ensures MakeEvent(lang, row, h, prev).head == h + 1
  {
  }

  lemma TrailSnoc(xs: seq<Event>, e: Event, h: nat)
    ensures Trail(xs + [e], h) == Trail(xs, h) + (if e.head == h + 1 then [e] else [])
  {
    assert (xs + [e])[..|xs|] == xs;
  }

  lemma TrailStep(lang: Dialect, rows: seq<RawRow>, heads: nat, h: nat)
    requires Shaped(rows, heads) && h < heads && |rows| >= 2
    ensures var n := |rows| - 1;
            Trail(Transitions(lang, rows, heads), h) == Trail(Transitions(lang, rows[..n], heads), h)
              + (if rows[n].count[h] != rows[n - 1].count[h] then [MakeEvent(lang, rows[n], h, rows[n - 1].count[h])]
                 else [])
  {
    var n := |rows| - 1;
    TrailAppend(Transitions(lang, rows[..n], heads), RowEvents(lang, rows[n - 1].count, rows[n], heads), h);
    RowTrail(lang, rows[n - 1].count, rows[n], heads, h);
  }

  lemma ColumnStep(rows: seq<RawRow>, heads: nat, h: nat)
    requires Shaped(rows, heads) && h < heads && |rows| >= 2
    ensures var n := |rows| - 1;
            && Column(rows, heads, h)[..n] == Column(rows[..n], heads, h)
            && Column(rows, heads, h)[n] == rows[n].count[h]
            && Column(rows, heads, h)[n - 1] == rows[n - 1].count[h]
            && |Column(rows, heads, h)| == n + 1
  {
  }

  // Seed plus one head's counts is that head's counter with its held stretches
  // collapsed: nothing is dropped, nothing repeated.
  lemma {:induction false} StreamIsRunLength(lang: Dialect, rows: seq<RawRow>, heads: nat, h: nat)
    requires Shaped(rows, heads) && h < heads && rows != []
    ensures [rows[0].count[h]] + CapSeqs(Trail(Transitions(lang, rows, heads), h)) == Collapse(Column(rows, heads, h))
  {
    hide Transitions, RowEvents, Trail;
    var n := |rows| - 1;
    if n > 0 {
      StreamIsRunLength(lang, rows[..n], heads, h);
      TrailStep(lang, rows, heads, h);
      ColumnStep(rows, heads, h);
      hide Column;
    } else {
      NoTrail(lang, rows, heads, h);
    }
  }

  lemma NoTrail(lang: Dialect, rows: seq<RawRow>, heads: nat, h: nat)
    requires Shaped(rows, heads) && |rows| == 1
    ensures Trail(Transitions(lang, rows, heads), h) == []
  {
  }

  ghost predicate SaturatedStep(e: Event, before: int) {
    && e.delta == SaturatedDelta(e.capSeq, before)
    && e.reset == (e.capSeq < before)
    && e.aggregated == (e.capSeq - before > 1)
  }

  ghost function Before(seed: int, trail: seq<Event>, k: nat): int
    requires k < |trail|
  {
    if k == 0 then seed else trail[k - 1].capSeq
  }

  ghost predicate AllSaturated(seed: int, trail: seq<Event>) {
    forall k :: 0 <= k < |trail| ==> SaturatedStep(trail[k], Before(seed, trail, k))
  }

  // The count after the last event of a trail.
  ghost function After(seed: int, trail: seq<Event>): int {
    if trail == [] then seed else trail[|trail| - 1].capSeq
  }

  lemma SaturatedMore(seed: int, trail: seq<Event>, e: Event)
    requires AllSaturated(seed, trail) && SaturatedStep(e, After(seed, trail))
    ensures AllSaturated(seed, trail + [e])
  {
    hide SaturatedStep;
    var more := trail + [e];
    forall k | 0 <= k < |more| ensures SaturatedStep(more[k], Before(seed, more, k)) {
      assert k > 0 ==> more[k - 1] == trail[k - 1];
      if k < |trail| {
        assert SaturatedStep(trail[k], Before(seed, trail, k));
      }
    }
  }

  // After all events of a head its count is that of the last row.
  lemma {:induction false} LastCount(lang: Dialect, rows: seq<RawRow>, heads: nat, h: nat)
    requires Shaped(rows, heads) && h < heads && rows != []
    ensures After(rows[0].count[h], Trail(Transitions(lang, rows, heads), h)) == rows[|rows| - 1].count[h]
  {
    hide Transitions, RowEvents, Trail;
    if |rows| > 1 {
      var n := |rows| - 1;
      LastCount(lang, rows[..n], heads, h);
      TrailStep(lang, rows, heads, h);
    } else {
      NoTrail(lang, rows, heads, h);
    }
  }

  // Each event carries the saturated step from the count before it.
  lemma {:induction false} StepsAreSaturated(rows: seq<RawRow>, heads: nat, h: nat)
    requires Shaped(rows, heads) && h < heads && rows != []
    ensures AllSaturated(rows[0].count[h], Trail(Transitions(Cpp, rows, heads), h))
  {
    hide Transitions, RowEvents, Trail, MakeEvent, SaturatedStep, AllSaturated, After;
    var n := |rows| - 1;
    if n > 0 {
      var trail, e := Trail(Transitions(Cpp, rows[..n], heads), h), MakeEvent(Cpp, rows[n], h, rows[n - 1].count[h]);
      StepsAreSaturated(rows[..n], heads, h);
      TrailStep(Cpp, rows, heads, h);
      if rows[n].count[h] != rows[n - 1].count[h] {
        LastCount(Cpp, rows[..n], heads, h);
        EventSaturated(rows[n], h, rows[n - 1].count[h]);
        SaturatedMore(rows[0].count[h], trail, e);
      } else {
        assert trail + [] == trail;
      }
    } else {
      NoTrail(Cpp, rows, heads, h);
      NothingSaturated(rows[0].count[h]);
    }
  }

  lemma EventSaturated(row: RawRow, h: nat, prev: int)
    requires h < |row.count| && h < |row.torque| && h < |row.status|
    ensures SaturatedStep(MakeEvent(Cpp, row, h, prev), prev)
  {
  }

  lemma NothingSaturated(seed: int)
    ensures AllSaturated(seed, [])
  {
  }

  /******* Reading a count back *******/

  // The count of head h at a row: the latest event of that head whose timestamp
  // is one of those seen up to the row, else the seed.
  function Recover(seed: int, seen: set<string>, events: seq<Event>, h: nat): int {
    if events == [] then seed
    else
      var e := events[|events| - 1];
      if e.head == h + 1 && e.ts in seen then e.capSeq else Recover(seed, seen, events[..|events| - 1], h)
  }

  ghost predicate DistinctTimestamps(ts: seq<string>) {
    forall i, j :: 1 <= i < j < |ts| ==> ts[i] != ts[j]
  }

  function Timestamps(rows: seq<RawRow>): seq<string> {
    seq(|rows|, i requires 0 <= i < |rows| => rows[i].ts)
  }

  // The timestamps of rows 1 to i.
  ghost function Seen(rows: seq<RawRow>, i: nat): set<string>
    requires i < |rows|
  {
    set k | 1 <= k <= i :: rows[k].ts
  }

  lemma {:induction false} RecoverAppend(seed: int, seen: set<string>, xs: seq<Event>, ys: seq<Event>, h: nat)
    ensures Recover(seed, seen, xs + ys, h) == Recover(Recover(seed, seen, xs, h), seen, ys, h)
  {
    if ys == [] {
      assert xs + ys == xs;
    } else {
      assert (xs + ys)[..|xs + ys| - 1] == xs + ys[..|ys| - 1];
      RecoverAppend(seed, seen, xs, ys[..|ys| - 1], h);
    }
  }

  lemma {:induction false} RecoverRow(lang: Dialect, prev: seq<int>, row: RawRow, k: nat, h: nat, seed: int,
                                      seen: set<string>)
    requires k <= |prev| && k <= |row.count| && k <= |row.torque| && k <= |row.status|
    ensures Recover(seed, seen, RowEvents(lang, prev, row, k), h)
         == if row.ts in seen && h < k && row.count[h] != prev[h] then row.count[h] else seed
  {
    if k > 0 {
      RecoverRow(lang, prev, row, k - 1, h, seed, seen);
      var xs := RowEvents(lang, prev, row, k - 1);
      if row.count[k - 1] != prev[k - 1] {
        var e := MakeEvent(lang, row, k - 1, prev[k - 1]);
        assert RowEvents(lang, prev, row, k) == xs + [e];
        assert e.head == k && e.ts == row.ts && e.capSeq == row.count[k - 1];
        hide RowEvents, MakeEvent;
        RecoverSnoc(seed, seen, xs, e, h);
      } else {
        assert RowEvents(lang, prev, row, k) == xs + [] == xs;
      }
    } else {
      assert RowEvents(lang, prev, row, 0) == [];
    }
  }

  lemma RecoverSnoc(seed: int, seen: set<string>, xs: seq<Event>, e: Event, h: nat)
    ensures Recover(seed, seen, xs + [e], h)
         == if e.head == h + 1 && e.ts in seen then e.capSeq else Recover(seed, seen, xs, h)
  {
    assert (xs + [e])[..|xs|] == xs;
  }

  lemma RecoverStep(lang: Dialect, rows: seq<RawRow>, heads: nat, h: nat, seed: int, seen: set<string>)
    requires Shaped(rows, heads) && h < heads && |rows| >= 2
    ensures var n := |rows| - 1;
            Recover(seed, seen, Transitions(lang, rows, heads), h) == (
              if rows[n].ts in seen && rows[n].count[h] != rows[n - 1].count[h] then rows[n].count[h]
              else Recover(seed, seen, Transitions(lang, rows[..n], heads), h))
  {
    var n := |rows| - 1;
    var xs := Transitions(lang, rows[..n], heads);
    RecoverAppend(seed, seen, xs, RowEvents(lang, rows[n - 1].count, rows[n], heads), h);
    RecoverRow(lang, rows[n - 1].count, rows[n], heads, h, Recover(seed, seen, xs, h), seen);
  }

  // Lossless: with distinct timestamps, the seed row and the events determine
  // every count of every row.
  lemma {:induction false} CountsRecovered(lang: Dialect, rows: seq<RawRow>, heads: nat, h: nat, i: nat)
    requires Shaped(rows, heads) && h < heads && i < |rows| && DistinctTimestamps(Timestamps(rows))
    ensures Recover(rows[0].count[h], Seen(rows, i), Transitions(lang, rows, heads), h) == rows[i].count[h]
    decreases |rows|
  {
    hide Transitions, Recover;
    var n := |rows| - 1;
    if n == 0 {
      NothingToRecover(lang, rows, heads, h, Seen(rows, i));
    } else {
      var seed := rows[0].count[h];
      RecoverStep(lang, rows, heads, h, seed, Seen(rows, i));
      FewerDistinct(rows, i);
      if i == n {
        CountsRecovered(lang, rows[..n], heads, h, n - 1);
        LaterUnused(lang, rows[..n], heads, h, seed, Seen(rows[..n], n - 1), Seen(rows, n));
      } else {
        CountsRecovered(lang, rows[..n], heads, h, i);
      }
    }
  }

  lemma NothingToRecover(lang: Dialect, rows: seq<RawRow>, heads: nat, h: nat, seen: set<string>)
    requires Shaped(rows, heads) && h < heads && |rows| == 1
    ensures Recover(rows[0].count[h], seen, Transitions(lang, rows, heads), h) == rows[0].count[h]
  {
  }

  lemma FewerDistinct(rows: seq<RawRow>, i: nat)
    requires |rows| >= 2 && i < |rows| && DistinctTimestamps(Timestamps(rows))
    ensures var n := |rows| - 1;
            && DistinctTimestamps(Timestamps(rows[..n]))
            && (rows[n].ts in Seen(rows, i) <==> i == n)
            && (i < n ==> Seen(rows[..n], i) == Seen(rows, i))
            && (forall k :: 1 <= k < n ==> rows[k].ts in Seen(rows[..n], n - 1) && rows[k].ts in Seen(rows, n))
  {
    var n := |rows| - 1;
    var ts := Timestamps(rows);
    assert Timestamps(rows[..n]) == ts[..n];
    assert forall k :: 0 <= k < |rows| ==> ts[k] == rows[k].ts;
  }

  // Timestamps outside the rows do not matter to reading them back.
  lemma {:induction false} LaterUnused(lang: Dialect, rows: seq<RawRow>, heads: nat, h: nat, seed: int, a: set<string>,
                                       b: set<string>)
    requires Shaped(rows, heads) && h < heads && rows != []
    requires forall k :: 1 <= k < |rows| ==> rows[k].ts in a && rows[k].ts in b
    ensures Recover(seed, a, Transitions(lang, rows, heads), h) == Recover(seed, b, Transitions(lang, rows, heads), h)
  {
    if |rows| > 1 {
      LaterUnused(lang, rows[..|rows| - 1], heads, h, seed, a, b);
      RecoverStep(lang, rows, heads, h, seed, a);
      RecoverStep(lang, rows, heads, h, seed, b);
    }
  }

  /******* Why timestamps must be distinct *******/

  // Head 0 counts zero until row `at` and one from there on; every other head holds still.
  function StepRows(ts: seq<string>, at: nat, heads: nat): seq<RawRow> {
    seq(|ts|, i requires 0 <= i < |ts| => StepRow(ts[i], if i < at then 0 else 1, heads))
  }

  function StepRow(ts: string, first: int, heads: nat): RawRow {
    RawRow(ts, seq(heads, h => if h == 0 then first else 0), seq(heads, _ => 0.0), seq(heads, _ => 0.0))
  }

  lemma {:induction false} StepStream(lang: Dialect, ts: seq<string>, at: nat, heads: nat)
    requires at >= 1 && heads >= 1
    ensures Shaped(StepRows(ts, at, heads), heads)
    ensures Transitions(lang, StepRows(ts, at, heads), heads)
         == if at < |ts| then [Event(1, ts[at], 1, 0.0, 0.0, 1, false, false, false)] else []
  {
    hide Transitions, RowEvents;
    var rows := StepRows(ts, at, heads);
    if |ts| > 1 {
      var n := |ts| - 1;
      StepStream(lang, ts[..n], at, heads);
      assert rows[..n] == StepRows(ts[..n], at, heads);
      assert rows[..n + 1] == rows;
      TransitionsStep(lang, rows, heads, n);
      StepRowEvents(lang, ts[n - 1], ts[n], if n - 1 < at then 0 else 1, if n < at then 0 else 1, heads, heads);
    } else {
      NoTransitions(lang, rows, heads);
    }
  }

  lemma NoTransitions(lang: Dialect, rows: seq<RawRow>, heads: nat)
    requires Shaped(rows, heads) && |rows| <= 1
    ensures Transitions(lang, rows, heads) == []
  {
  }

  lemma {:induction false} StepRowEvents(lang: Dialect, t: string, u: string, before: int, after: int, heads: nat,
                                         k: nat)
    requires k <= heads && (after == before || (before == 0 && after == 1))
    ensures RowEvents(lang, StepRow(t, before, heads).count, StepRow(u, after, heads), k)
         == if k == 0 || after == before then [] else [Event(1, u, 1, 0.0, 0.0, 1, false, false, false)]
  {
    assert Trunc(0.0) == 0;
    if k > 0 {
      StepRowEvents(lang, t, u, before, after, heads, k - 1);
    }
  }

  ghost predicate Determines(lang: Dialect, ts: seq<string>, heads: nat) {
    forall rows: seq<RawRow>, others: seq<RawRow> {:trigger Transitions(lang, rows, heads),
                                                   Transitions(lang, others, heads)} ::
      Shaped(rows, heads) && Shaped(others, heads) && Timestamps(rows) == ts == Timestamps(others)
      && (ts != [] ==> rows[0].count == others[0].count)
      && Transitions(lang, rows, heads) == Transitions(lang, others, heads)
      ==> forall i :: 0 <= i < |ts| ==> rows[i].count == others[i].count
  }

  // The code's argument that a timestamp identifies an observation is exactly
  // what makes the stream lossless: without it, on a machine with any head at
  // all, the same events can come from different counters.
  lemma LosslessIffDistinct(lang: Dialect, ts: seq<string>, heads: nat)
    ensures Determines(lang, ts, heads) <==> heads == 0 || DistinctTimestamps(ts)
  {
    hide Determines;
    if heads == 0 {
      NothingToDetermine(lang, ts);
    } else if DistinctTimestamps(ts) {
      DistinctDetermines(lang, ts, heads);
    } else {
      var i, j :| 1 <= i < j < |ts| && ts[i] == ts[j];
      RepeatLoses(lang, ts, heads, i, j);
    }
  }

  lemma NothingToDetermine(lang: Dialect, ts: seq<string>)
    ensures Determines(lang, ts, 0)
  {
    forall rows: seq<RawRow>, others: seq<RawRow>, i: nat |
      Shaped(rows, 0) && Shaped(others, 0) && |rows| == |others| && i < |rows|
      ensures rows[i].count == others[i].count
    {
      assert rows[i].count == [] == others[i].count;
    }
    forall rows: seq<RawRow> | Timestamps(rows) == ts ensures |rows| == |ts| {}
    hide Transitions, Timestamps;
  }

  // Two runs that differ only in when the one step of head 0 happens.
  lemma RepeatLoses(lang: Dialect, ts: seq<string>, heads: nat, i: nat, j: nat)
    requires 1 <= i < j < |ts| && ts[i] == ts[j] && heads >= 1
    ensures !Determines(lang, ts, heads)
  {
    var a, b := StepRows(ts, i, heads), StepRows(ts, j, heads);
    assert Timestamps(a) == ts == Timestamps(b) && a[0].count == b[0].count && a[i].count[0] != b[i].count[0];
    StepStream(lang, ts, i, heads);
    StepStream(lang, ts, j, heads);
    hide StepRows, Transitions, Timestamps;
    assert Transitions(lang, a, heads) == Transitions(lang, b, heads);
  }

  lemma DistinctDetermines(lang: Dialect, ts: seq<string>, heads: nat)
    requires DistinctTimestamps(ts)
    ensures Determines(lang, ts, heads)
  {
    forall rows: seq<RawRow>, others: seq<RawRow>, i |
      Shaped(rows, heads) && Shaped(others, heads) && Timestamps(rows) == ts == Timestamps(others)
      && (ts != [] ==> rows[0].count == others[0].count)
      && Transitions(lang, rows, heads) == Transitions(lang, others, heads) && 0 <= i < |ts|
      ensures rows[i].count == others[i].count
    {
      assert |rows| == |ts| == |others|;
      forall k | 0 <= k < |rows| ensures rows[k].ts == others[k].ts {
        assert Timestamps(rows)[k] == Timestamps(others)[k];
      }
      assert Seen(rows, i) == Seen(others, i);
      forall h | 0 <= h < heads ensures rows[i].count[h] == others[i].count[h] {
        CountsRecovered(lang, rows, heads, h, i);
        CountsRecovered(lang, others, heads, h, i);
      }
    }
  }
}
