// The stream against the day-file's cells, and the table against the counters:
// what an event says about which poll and head, and what can be read back from a
// worker's store.
module Cells {
  import opened Protocol
  import opened Extractor
  import opened Encoding
  import opened Store

  /******* The stream is the changed cells *******/

  // Head h (from 0) was counting something else at the poll before i.
  ghost predicate Changed(rows: seq<RawRow>, heads: nat, i: int, h: int)
    requires Shaped(rows, heads)
  {
    1 <= i < |rows| && 0 <= h < heads && rows[i].count[h] != rows[i - 1].count[h]
  }

  ghost predicate Odd(status: real) {
    exists n: int :: Halves(status, n)
  }

  // Cut off towards zero, the status is the odd number 2n + 1.
  ghost predicate Halves(status: real, n: int) {
    if 2 * n + 1 > 0 then (2 * n + 1) as real <= status < (2 * n + 2) as real
    else (2 * n) as real < status <= (2 * n + 1) as real
  }

  // The event that reports the change, column by column.
  ghost predicate Describes(lang: Dialect, rows: seq<RawRow>, heads: nat, i: int, h: int, e: Event)
    requires Shaped(rows, heads) && Changed(rows, heads, i, h)
  {
    var row, now, before := rows[i], rows[i].count[h], rows[i - 1].count[h];
    && e.head == h + 1 && e.ts == row.ts && e.capSeq == now && e.torque == row.torque[h] && e.status == row.status[h]
    && e.reset == (now < before)
    && e.delta == (if now < before then 0 else if lang == Cpp && now - before > 2147483647 then 2147483647
                   else now - before)
    && (e.aggregated <==> now - before > 1)
    && (e.isFault <==>
          (lang == Cpp && !(-9007199254740992.0 <= row.status[h] <= 9007199254740992.0)) || Odd(row.status[h]))
  }

  ghost predicate InPollOrder(at: seq<(int, int)>) {
    forall a, b :: 0 <= a < b < |at| ==> at[a].0 < at[b].0 || (at[a].0 == at[b].0 && at[a].1 < at[b].1)
  }

  // Event k of the list is about cell at[k].
  ghost predicate Located(lang: Dialect, rows: seq<RawRow>, heads: nat, events: seq<Event>, at: seq<(int, int)>)
    requires Shaped(rows, heads)
  {
    && |at| == |events| && InPollOrder(at)
    && forall k :: 0 <= k < |at| ==> Changed(rows, heads, at[k].0, at[k].1)
                                     && Describes(lang, rows, heads, at[k].0, at[k].1, events[k])
  }

  // The cells among the first i polls and, of poll i, the first h heads.
  ghost predicate Before(a: (int, int), i: int, h: int) {
    a.0 < i || (a.0 == i && a.1 < h)
  }

  ghost predicate Covers(rows: seq<RawRow>, heads: nat, at: seq<(int, int)>, i: int, h: int)
    requires Shaped(rows, heads)
  {
    && (forall k :: 0 <= k < |at| ==> Before(at[k], i, h))
    && forall j, g :: Changed(rows, heads, j, g) && Before((j, g), i, h) ==> (j, g) in at
  }

  lemma RejectIsOdd(status: real)
    ensures IsRejectPython(status) <==> Odd(status)
    ensures IsRejectCpp(status) <==> !(-9007199254740992.0 <= status <= 9007199254740992.0) || Odd(status)
  {
    var t := Trunc(status);
    if t % 2 != 0 {
      assert t == 2 * (t / 2) + 1;
      assert Halves(status, t / 2);
    }
    if n: int :| Halves(status, n) {
      assert t == 2 * n + 1;
    }
    assert RemCpp(t, 2) != 0 <==> t % 2 != 0;
  }

  lemma MadeDescribes(lang: Dialect, rows: seq<RawRow>, heads: nat, i: nat, h: nat)
    requires Shaped(rows, heads) && Changed(rows, heads, i, h)
    ensures Describes(lang, rows, heads, i, h, MakeEvent(lang, rows[i], h, rows[i - 1].count[h]))
  {
    RejectIsOdd(rows[i].status[h]);
    hide IsRejectCpp, IsRejectPython, Odd;
  }

  lemma InOrderMore(at: seq<(int, int)>, i: int, h: int)
    requires InPollOrder(at) && forall k :: 0 <= k < |at| ==> Before(at[k], i, h)
    ensures InPollOrder(at + [(i, h)])
  {
  }

  lemma CoversMore(rows: seq<RawRow>, heads: nat, at: seq<(int, int)>, i: int, h: int)
    requires Shaped(rows, heads) && Covers(rows, heads, at, i, h)
    ensures Covers(rows, heads, if Changed(rows, heads, i, h) then at + [(i, h)] else at, i, h + 1)
  {
    var next := if Changed(rows, heads, i, h) then at + [(i, h)] else at;
    forall j, g | Changed(rows, heads, j, g) && Before((j, g), i, h + 1) ensures (j, g) in next {
      if j == i && g == h {
        assert next[|at|] == (j, g);
      } else {
        assert Before((j, g), i, h) && (j, g) in at;
      }
    }
  }

  lemma LocatedSnoc(lang: Dialect, rows: seq<RawRow>, heads: nat, events: seq<Event>, at: seq<(int, int)>, i: int,
                    h: int, e: Event)
    requires Shaped(rows, heads) && Located(lang, rows, heads, events, at) && InPollOrder(at + [(i, h)])
    requires Changed(rows, heads, i, h) && Describes(lang, rows, heads, i, h, e)
    ensures Located(lang, rows, heads, events + [e], at + [(i, h)])
  {
    hide InPollOrder, Describes, Changed;
  }

  lemma LocatedMore(lang: Dialect, rows: seq<RawRow>, heads: nat, events: seq<Event>, at: seq<(int, int)>, i: nat,
                    h: nat)
    requires Shaped(rows, heads) && Located(lang, rows, heads, events, at) && Covers(rows, heads, at, i, h)
    requires 1 <= i < |rows| && h < heads
    ensures var e := MakeEvent(lang, rows[i], h, rows[i - 1].count[h]);
            var more := if Changed(rows, heads, i, h) then (events + [e], at + [(i as int, h as int)])
                        else (events, at);
            Located(lang, rows, heads, more.0, more.1) && Covers(rows, heads, more.1, i, h + 1)
  {
    CoversMore(rows, heads, at, i, h);
    if Changed(rows, heads, i, h) {
      MadeDescribes(lang, rows, heads, i, h);
      InOrderMore(at, i, h);
      LocatedSnoc(lang, rows, heads, events, at, i, h, MakeEvent(lang, rows[i], h, rows[i - 1].count[h]));
    }
    hide *;
  }

  lemma {:induction false} RowLocated(lang: Dialect, rows: seq<RawRow>, heads: nat, events: seq<Event>,
                                      at: seq<(int, int)>, i: nat, k: nat)
    returns (more: seq<(int, int)>)
    requires Shaped(rows, heads) && 1 <= i < |rows| && k <= heads
    requires Located(lang, rows, heads, events, at) && Covers(rows, heads, at, i, 0)
    ensures Located(lang, rows, heads, events + RowEvents(lang, rows[i - 1].count, rows[i], k), more)
    ensures Covers(rows, heads, more, i, k)
  {
    hide Located, Covers, MakeEvent;
    if k == 0 {
      more := at;
      assert events + RowEvents(lang, rows[i - 1].count, rows[i], 0) == events;
    } else {
      var h := k - 1;
      var es := RowEvents(lang, rows[i - 1].count, rows[i], h);
      more := RowLocated(lang, rows, heads, events, at, i, h);
      LocatedMore(lang, rows, heads, events + es, more, i, h);
      if Changed(rows, heads, i, h) {
        more := more + [(i as int, h as int)];
        assert (events + es) + [MakeEvent(lang, rows[i], h, rows[i - 1].count[h])]
            == events + RowEvents(lang, rows[i - 1].count, rows[i], k);
      } else {
        assert RowEvents(lang, rows[i - 1].count, rows[i], k) == es;
      }
    }
  }

  // The stream of a file: one event for each cell that differs from the poll
  // before, in the order of polls and then heads, each telling that cell's own
  // count, torque, status and step.
  lemma StreamIsCells(lang: Dialect, rows: seq<RawRow>, heads: nat) returns (at: seq<(int, int)>)
    requires Shaped(rows, heads)
    ensures Located(lang, rows, heads, Transitions(lang, rows, heads), at)
    ensures forall i, h :: Changed(rows, heads, i, h) <==> (i, h) in at
  {
    at := [];
    if rows != [] {
      at := PollsLocated(lang, rows, heads, |rows|);
      assert rows[..|rows|] == rows;
    }
    hide Describes, Transitions;
    forall i, h | Changed(rows, heads, i, h) ensures (i, h) in at {
      assert Before((i, h), |rows|, 0);
    }
  }

  lemma NothingLocated(lang: Dialect, rows: seq<RawRow>, heads: nat)
    requires Shaped(rows, heads) && rows != []
    ensures Located(lang, rows, heads, Transitions(lang, rows[..1], heads), []) && Covers(rows, heads, [], 1, 0)
  {
    hide Describes;
    assert |rows[..1]| == 1;
  }

  lemma {:induction false} PollsLocated(lang: Dialect, rows: seq<RawRow>, heads: nat, n: nat)
    returns (at: seq<(int, int)>)
    requires Shaped(rows, heads) && 1 <= n <= |rows|
    ensures Located(lang, rows, heads, Transitions(lang, rows[..n], heads), at) && Covers(rows, heads, at, n, 0)
  {
    hide Located, Covers, Transitions, RowEvents;
    if n == 1 {
      at := [];
      NothingLocated(lang, rows, heads);
    } else {
      at := PollsLocated(lang, rows, heads, n - 1);
      TransitionsStep(lang, rows, heads, n - 1);
      at := RowLocated(lang, rows, heads, Transitions(lang, rows[..n - 1], heads), at, n - 1, heads);
      NextPoll(rows, heads, at, n - 1);
    }
  }

  lemma NextPoll(rows: seq<RawRow>, heads: nat, at: seq<(int, int)>, i: nat)
    requires Shaped(rows, heads) && Covers(rows, heads, at, i, heads)
    ensures Covers(rows, heads, at, i + 1, 0)
  {
    forall j, g | Changed(rows, heads, j, g) && Before((j, g), i + 1, 0) ensures (j, g) in at {
      assert Before((j, g), i, heads);
    }
  }

  /******* What a store gives back *******/

  // The table of one clean run of the file into an empty store.
  function CleanRun(cast: Cast, machine: string, rows: seq<RawRow>, heads: nat): Table
    requires Shaped(rows, heads) && Castable(cast, Transitions(Cpp, rows, heads))
  {
    InsertAll(map[], KeyedRows(cast, machine, Transitions(Cpp, rows, heads)))
  }

  ghost predicate AllCast(cast: Cast, ts: seq<string>) {
    forall i :: 0 <= i < |ts| ==> cast(ts[i]).Some?
  }

  // The database tells the polls after the first apart.
  ghost predicate DistinctTimes(cast: Cast, ts: seq<string>) {
    forall i, j :: 1 <= i < j < |ts| ==> cast(ts[i]) != cast(ts[j])
  }

  lemma StreamCasts(cast: Cast, lang: Dialect, rows: seq<RawRow>, heads: nat)
    requires Shaped(rows, heads) && AllCast(cast, Timestamps(rows))
    ensures Castable(cast, Transitions(lang, rows, heads))
  {
    var at := StreamIsCells(lang, rows, heads);
    var events := Transitions(lang, rows, heads);
    hide Transitions;
    forall k | 0 <= k < |events| ensures cast(events[k].ts).Some? {
      assert Describes(lang, rows, heads, at[k].0, at[k].1, events[k]);
      assert events[k].ts == Timestamps(rows)[at[k].0];
    }
  }

  // With distinct times, no two events of a file are the same observation: the
  // table has one row per event, and every event can be read back from it.
  lemma StreamApart(cast: Cast, rows: seq<RawRow>, heads: nat)
    requires Shaped(rows, heads) && AllCast(cast, Timestamps(rows)) && DistinctTimes(cast, Timestamps(rows))
    ensures Apart(cast, Transitions(Cpp, rows, heads))
  {
    var at := StreamIsCells(Cpp, rows, heads);
    var events, ts := Transitions(Cpp, rows, heads), Timestamps(rows);
    hide Transitions, Changed, AllCast, Timestamps;
    forall a, b | 0 <= a < b < |events| ensures !SameObservation(cast, events[a], events[b]) {
      CellTimes(Cpp, rows, heads, at[a], events[a]);
      CellTimes(Cpp, rows, heads, at[b], events[b]);
    }
  }

  lemma CellTimes(lang: Dialect, rows: seq<RawRow>, heads: nat, a: (int, int), e: Event)
    requires Shaped(rows, heads) && Changed(rows, heads, a.0, a.1) && Describes(lang, rows, heads, a.0, a.1, e)
    ensures 1 <= a.0 < |Timestamps(rows)| && e.ts == Timestamps(rows)[a.0] && e.head == a.1 + 1
  {
  }

  // Shown by the table under the cell's key.
  ghost predicate ShowsCell(t: Table, k: Key, row: RawRow, h: nat)
    requires h < |row.count| && h < |row.torque| && h < |row.status|
  {
    k in t && t[k].capSeq == row.count[h] && t[k].torque == row.torque[h] && t[k].status == row.status[h]
  }

  lemma EventShowsCell(cast: Cast, machine: string, rows: seq<RawRow>, heads: nat, a: (int, int), e: Event, t: Table)
    requires Shaped(rows, heads) && Changed(rows, heads, a.0, a.1) && Describes(Cpp, rows, heads, a.0, a.1, e)
    requires Stored(cast, machine, e, t)
    ensures cast(rows[a.0].ts).Some?
    ensures ShowsCell(t, Key(machine, a.1 + 1, cast(rows[a.0].ts).value), rows[a.0], a.1)
  {
  }

  lemma ChangedStored(cast: Cast, machine: string, rows: seq<RawRow>, heads: nat, i: nat, h: nat)
    requires Shaped(rows, heads) && AllCast(cast, Timestamps(rows)) && DistinctTimes(cast, Timestamps(rows))
    requires Changed(rows, heads, i, h)
    ensures Castable(cast, Transitions(Cpp, rows, heads)) && cast(rows[i].ts).Some?
    ensures ShowsCell(CleanRun(cast, machine, rows, heads), Key(machine, h + 1, cast(rows[i].ts).value), rows[i], h)
  {
    hide Transitions, KeyedRows, InsertAll, Apart, AllCast, Timestamps, Describes, ShowsCell, Stored, DistinctTimes,
         Castable, InPollOrder;
    var events := Transitions(Cpp, rows, heads);
    StreamCasts(cast, Cpp, rows, heads);
    StreamApart(cast, rows, heads);
    var at := StreamIsCells(Cpp, rows, heads);
    CleanTable(cast, machine, events);
    assert (i, h) in at;
    var a :| 0 <= a < |at| && at[a] == (i as int, h as int);
    hide Changed;
    EventShowsCell(cast, machine, rows, heads, at[a], events[a], CleanRun(cast, machine, rows, heads));
  }

  lemma SameTime(cast: Cast, rows: seq<RawRow>, i: nat, j: nat)
    requires AllCast(cast, Timestamps(rows)) && DistinctTimes(cast, Timestamps(rows))
    requires 1 <= i < |rows| && 1 <= j < |rows| && cast(rows[i].ts) == cast(rows[j].ts)
    ensures i == j
  {
    var ts := Timestamps(rows);
    assert ts[i] == rows[i].ts && ts[j] == rows[j].ts;
  }

  lemma StoredChanged(cast: Cast, machine: string, rows: seq<RawRow>, heads: nat, i: nat, h: nat)
    requires Shaped(rows, heads) && AllCast(cast, Timestamps(rows)) && DistinctTimes(cast, Timestamps(rows))
    requires 1 <= i < |rows| && h < heads
    requires Castable(cast, Transitions(Cpp, rows, heads)) && cast(rows[i].ts).Some?
    requires Key(machine, h + 1, cast(rows[i].ts).value) in CleanRun(cast, machine, rows, heads)
    ensures Changed(rows, heads, i, h)
  {
    var events := Transitions(Cpp, rows, heads);
    var t, k := CleanRun(cast, machine, rows, heads), Key(machine, h + 1, cast(rows[i].ts).value);
    var at := StreamIsCells(Cpp, rows, heads);
    FreshTable(cast, machine, events);
    assert Explained(cast, machine, events, k, t[k]);
    hide Transitions, KeyedRows, InsertAll, AllCast, DistinctTimes, Castable, CleanRun, Shows, Stored;
    var a :| 0 <= a < |events| && cast(events[a].ts) == Some(k.ts) && k == Key(machine, events[a].head, k.ts)
             && Shows(t[k], events[a]);
    hide *;
    OfCell(cast, rows, heads, events, at, a, i, h);
  }

  lemma OfCell(cast: Cast, rows: seq<RawRow>, heads: nat, events: seq<Event>, at: seq<(int, int)>, a: nat, i: nat,
               h: nat)
    requires Shaped(rows, heads) && AllCast(cast, Timestamps(rows)) && DistinctTimes(cast, Timestamps(rows))
    requires Located(Cpp, rows, heads, events, at) && 1 <= i < |rows| && a < |events|
    requires events[a].head == h + 1 && cast(events[a].ts) == cast(rows[i].ts)
    ensures Changed(rows, heads, i, h)
  {
    CellTimes(Cpp, rows, heads, at[a], events[a]);
    assert events[a].ts == rows[at[a].0].ts;
    SameTime(cast, rows, at[a].0, i);
    hide Changed, Describes;
  }

  // A cell of the file as the table of a clean run shows it: under the cell's
  // head and time there is a row exactly when the count changed, and it shows
  // the cell's count, torque and status.
  lemma CellStored(cast: Cast, machine: string, rows: seq<RawRow>, heads: nat, i: nat, h: nat)
    requires Shaped(rows, heads) && AllCast(cast, Timestamps(rows)) && DistinctTimes(cast, Timestamps(rows))
    requires 1 <= i < |rows| && h < heads
    ensures Castable(cast, Transitions(Cpp, rows, heads)) && cast(rows[i].ts).Some?
    ensures var t, k := CleanRun(cast, machine, rows, heads), Key(machine, h + 1, cast(rows[i].ts).value);
            && (k in t <==> Changed(rows, heads, i, h))
            && (k in t ==> ShowsCell(t, k, rows[i], h))
  {
    StreamCasts(cast, Cpp, rows, heads);
    assert Timestamps(rows)[i] == rows[i].ts;
    var k := Key(machine, h + 1, cast(rows[i].ts).value);
    hide Transitions, CleanRun, Changed, DistinctTimes, Timestamps;
    if Changed(rows, heads, i, h) {
      ChangedStored(cast, machine, rows, heads, i, h);
    }
    if k in CleanRun(cast, machine, rows, heads) {
      StoredChanged(cast, machine, rows, heads, i, h);
    }
  }

  // Two day-files with the same polls and the same first row that leave the same
  // table behind have the same counts throughout.
  lemma {:induction false} SameTableSameCounts(cast: Cast, machine: string, rows: seq<RawRow>, others: seq<RawRow>,
                                               heads: nat, i: nat)
    requires Shaped(rows, heads) && Shaped(others, heads) && Timestamps(rows) == Timestamps(others) && i < |rows|
    requires AllCast(cast, Timestamps(rows)) && DistinctTimes(cast, Timestamps(rows))
    requires Castable(cast, Transitions(Cpp, rows, heads)) && Castable(cast, Transitions(Cpp, others, heads))
    requires CleanRun(cast, machine, rows, heads) == CleanRun(cast, machine, others, heads)
    requires rows[0].count == others[0].count
    ensures i < |others| && rows[i].count == others[i].count
  {
    hide Transitions, CleanRun, Castable, AllCast, DistinctTimes, Timestamps;
    SamePolls(rows, others, i);
    if i > 0 {
      SameTableSameCounts(cast, machine, rows, others, heads, i - 1);
      forall h | 0 <= h < heads ensures rows[i].count[h] == others[i].count[h] {
        SameCell(cast, machine, rows, others, heads, i, h);
      }
      assert |rows[i].count| == |others[i].count| == heads;
    }
  }

  lemma SamePolls(rows: seq<RawRow>, others: seq<RawRow>, i: nat)
    requires Timestamps(rows) == Timestamps(others) && i < |rows|
    ensures |rows| == |others| && rows[i].ts == others[i].ts
  {
    assert |Timestamps(rows)| == |rows| && |Timestamps(others)| == |others|;
    assert Timestamps(rows)[i] == rows[i].ts && Timestamps(others)[i] == others[i].ts;
  }

  lemma SameCell(cast: Cast, machine: string, rows: seq<RawRow>, others: seq<RawRow>, heads: nat, i: nat, h: nat)
    requires Shaped(rows, heads) && Shaped(others, heads) && Timestamps(rows) == Timestamps(others)
    requires 1 <= i < |rows| && i < |others| && h < heads
    requires AllCast(cast, Timestamps(rows)) && DistinctTimes(cast, Timestamps(rows))
    requires Castable(cast, Transitions(Cpp, rows, heads)) && Castable(cast, Transitions(Cpp, others, heads))
    requires CleanRun(cast, machine, rows, heads) == CleanRun(cast, machine, others, heads)
    requires rows[i - 1].count == others[i - 1].count
    ensures rows[i].count[h] == others[i].count[h]
  {
    hide Transitions, CleanRun, Castable, AllCast, DistinctTimes, Timestamps;
    SamePolls(rows, others, i);
    CellStored(cast, machine, rows, heads, i, h);
    CellStored(cast, machine, others, heads, i, h);
  }

  // A clean run's table determines the counters of the file it came from.
  ghost predicate TableDetermines(cast: Cast, machine: string, ts: seq<string>, heads: nat)
    requires AllCast(cast, ts)
  {
    forall rows: seq<RawRow>, others: seq<RawRow> {:trigger Sources(cast, rows, ts, heads),
                                                   Sources(cast, others, ts, heads)} ::
      Sources(cast, rows, ts, heads) && Sources(cast, others, ts, heads)
      && (ts != [] ==> rows[0].count == others[0].count)
      && CleanRun(cast, machine, rows, heads) == CleanRun(cast, machine, others, heads)
      ==> forall i :: 0 <= i < |ts| ==> rows[i].count == others[i].count
  }

  // A file polled at these times.
  ghost predicate Sources(cast: Cast, rows: seq<RawRow>, ts: seq<string>, heads: nat)
    ensures Sources(cast, rows, ts, heads) ==> |rows| == |ts|
  {
    Shaped(rows, heads) && Timestamps(rows) == ts && Castable(cast, Transitions(Cpp, rows, heads))
  }

  // What reaches the store is lossless exactly when the database can tell the
  // polls apart: two texts of one moment lose a count even where the stream
  // still has it.
  lemma TableDeterminesIffDistinct(cast: Cast, machine: string, ts: seq<string>, heads: nat)
    requires AllCast(cast, ts)
    ensures TableDetermines(cast, machine, ts, heads) <==> heads == 0 || DistinctTimes(cast, ts)
  {
    hide TableDetermines;
    if heads == 0 {
      NoHeads(cast, machine, ts);
    } else if DistinctTimes(cast, ts) {
      DistinctTable(cast, machine, ts, heads);
    } else {
      var i, j :| 1 <= i < j < |ts| && cast(ts[i]) == cast(ts[j]);
      SameTimeLoses(cast, machine, ts, heads, i, j);
    }
  }

  lemma NoHeads(cast: Cast, machine: string, ts: seq<string>)
    requires AllCast(cast, ts)
    ensures TableDetermines(cast, machine, ts, 0)
  {
    hide Transitions, CleanRun;
    forall rows: seq<RawRow>, others: seq<RawRow>, i: nat |
      Sources(cast, rows, ts, 0) && Sources(cast, others, ts, 0) && i < |ts|
      ensures rows[i].count == others[i].count
    {
      assert rows[i].count == [] == others[i].count;
    }
  }

  lemma DistinctTable(cast: Cast, machine: string, ts: seq<string>, heads: nat)
    requires AllCast(cast, ts) && DistinctTimes(cast, ts)
    ensures TableDetermines(cast, machine, ts, heads)
  {
    hide Transitions, CleanRun, Castable, AllCast, DistinctTimes, Timestamps;
    forall rows: seq<RawRow>, others: seq<RawRow>, i: nat |
      Sources(cast, rows, ts, heads) && Sources(cast, others, ts, heads)
      && (ts != [] ==> rows[0].count == others[0].count)
      && CleanRun(cast, machine, rows, heads) == CleanRun(cast, machine, others, heads) && i < |ts|
      ensures rows[i].count == others[i].count
    {
      SameTableSameCounts(cast, machine, rows, others, heads, i);
    }
  }

  lemma SameTimeLoses(cast: Cast, machine: string, ts: seq<string>, heads: nat, i: nat, j: nat)
    requires AllCast(cast, ts) && heads >= 1 && 1 <= i < j < |ts| && cast(ts[i]) == cast(ts[j])
    ensures !TableDetermines(cast, machine, ts, heads)
  {
    var a, b := StepRows(ts, i, heads), StepRows(ts, j, heads);
    StepSource(cast, machine, ts, heads, i);
    StepSource(cast, machine, ts, heads, j);
    OneEvent(cast, machine, ts[i], ts[j]);
    assert a[0].count == b[0].count && a[i].count[0] != b[i].count[0];
    hide StepRows, Sources, CleanRun;
    Undetermined(cast, machine, ts, heads, a, b, i);
  }

  lemma StepSource(cast: Cast, machine: string, ts: seq<string>, heads: nat, at: nat)
    requires AllCast(cast, ts) && heads >= 1 && 1 <= at < |ts|
    ensures var rows, e := StepRows(ts, at, heads), Event(1, ts[at], 1, 0.0, 0.0, 1, false, false, false);
            && Sources(cast, rows, ts, heads) && Castable(cast, [e])
            && CleanRun(cast, machine, rows, heads) == InsertAll(map[], KeyedRows(cast, machine, [e]))
  {
    StepStream(Cpp, ts, at, heads);
    hide Transitions, InsertAll, KeyedRows;
    assert Timestamps(StepRows(ts, at, heads)) == ts;
  }

  lemma Undetermined(cast: Cast, machine: string, ts: seq<string>, heads: nat, a: seq<RawRow>, b: seq<RawRow>, i: nat)
    requires AllCast(cast, ts) && i < |ts| && Sources(cast, a, ts, heads) && Sources(cast, b, ts, heads)
    requires a[0].count == b[0].count && a[i].count != b[i].count
    requires CleanRun(cast, machine, a, heads) == CleanRun(cast, machine, b, heads)
    ensures !TableDetermines(cast, machine, ts, heads)
  {
    hide Transitions, CleanRun, Timestamps;
  }

  lemma OneEvent(cast: Cast, machine: string, t: string, u: string)
    requires cast(t).Some? && cast(t) == cast(u)
    ensures var e, f := Event(1, t, 1, 0.0, 0.0, 1, false, false, false),
                Event(1, u, 1, 0.0, 0.0, 1, false, false, false);
            && Castable(cast, [e]) && Castable(cast, [f])
            && KeyedRows(cast, machine, [e]) == KeyedRows(cast, machine, [f])
  {
  }
}
