// clean_file: rows through the extractor into the store, in batches.
module Pipeline {
  import opened Protocol
  import opened Extractor
  import opened Store

  const BATCH: nat := 8192

  // After n rows: the batches already written and the events still pending.
  datatype Progress = Progress(written: seq<seq<Event>>, pending: seq<Event>)

  function RowStream(rows: seq<RawRow>, heads: nat, i: nat): seq<Event>
    requires Shaped(rows, heads) && i < |rows|
  {
    if i == 0 then [] else RowEvents(Cpp, rows[i - 1].count, rows[i], heads)
  }

  function ProgressAt(rows: seq<RawRow>, heads: nat, n: nat): Progress
    requires Shaped(rows, heads) && n <= |rows|
  {
    if n == 0 then Progress([], [])
    else
      var p := ProgressAt(rows, heads, n - 1);
      var pending := p.pending + RowStream(rows, heads, n - 1);
      if |pending| >= BATCH then Progress(p.written + [pending], []) else Progress(p.written, pending)
  }

  // Everything clean_file hands to the store, the final partial batch included.
  function Batches(rows: seq<RawRow>, heads: nat): seq<seq<Event>>
    requires Shaped(rows, heads)
  {
    var p := ProgressAt(rows, heads, |rows|);
    p.written + [p.pending]
  }

  function Concat(batches: seq<seq<Event>>): seq<Event> {
    if batches == [] then [] else Concat(batches[..|batches| - 1]) + batches[|batches| - 1]
  }

  lemma ConcatSnoc(batches: seq<seq<Event>>, b: seq<Event>)
    ensures Concat(batches + [b]) == Concat(batches) + b
  {
    assert (batches + [b])[..|batches|] == batches;
  }

  lemma {:induction false} RowStreamSize(prev: seq<int>, row: RawRow, k: nat)
    requires k <= |prev| && k <= |row.count| && k <= |row.torque| && k <= |row.status|
    ensures |RowEvents(Cpp, prev, row, k)| <= k
  {
    if k > 0 {
      RowStreamSize(prev, row, k - 1);
    }
  }

  lemma StreamStep(rows: seq<RawRow>, heads: nat, n: nat)
    requires Shaped(rows, heads) && n < |rows|
    ensures Transitions(Cpp, rows[..n + 1], heads) == Transitions(Cpp, rows[..n], heads) + RowStream(rows, heads, n)
    ensures |RowStream(rows, heads, n)| <= heads
  {
    if n > 0 {
      TransitionsStep(Cpp, rows, heads, n);
      RowStreamSize(rows[n - 1].count, rows[n], heads);
    }
  }

  lemma ProgressStep(rows: seq<RawRow>, heads: nat, n: nat)
    requires Shaped(rows, heads) && n < |rows|
    ensures var p := ProgressAt(rows, heads, n);
            var pending := p.pending + RowStream(rows, heads, n);
            ProgressAt(rows, heads, n + 1) == (
              if |pending| >= BATCH then Progress(p.written + [pending], []) else Progress(p.written, pending))
  {
  }

  ghost predicate FullSizes(batches: seq<seq<Event>>, heads: nat) {
    forall k :: 0 <= k < |batches| ==> BATCH <= |batches[k]| < BATCH + (if heads == 0 then 1 else heads)
  }

  lemma FullSizesSnoc(batches: seq<seq<Event>>, b: seq<Event>, heads: nat)
    requires FullSizes(batches, heads) && BATCH <= |b| < BATCH + (if heads == 0 then 1 else heads)
    ensures FullSizes(batches + [b], heads)
  {
  }

  // What ProgressAt promises of the batches written, the events pending and the stream so far.
  ghost predicate Faithful(p: Progress, stream: seq<Event>, heads: nat) {
    Concat(p.written) + p.pending == stream && |p.pending| < BATCH && FullSizes(p.written, heads)
  }

  lemma FaithfulStep(p: Progress, stream: seq<Event>, row: seq<Event>, heads: nat)
    requires Faithful(p, stream, heads) && |row| <= heads
    ensures Faithful(if |p.pending + row| >= BATCH then Progress(p.written + [p.pending + row], [])
                     else Progress(p.written, p.pending + row),
                     stream + row, heads)
  {
    var pending := p.pending + row;
    ConcatSnoc(p.written, pending);
    assert Concat(p.written) + pending == Concat(p.written) + p.pending + row;
    if |pending| >= BATCH {
      FullSizesSnoc(p.written, pending, heads);
    }
    hide Concat, FullSizes;
  }

  // Nothing is lost or reordered, and a batch goes out as soon as it is full:
  // it overshoots by less than one row's worth of events.
  lemma {:induction false} ProgressLaw(rows: seq<RawRow>, heads: nat, n: nat)
    requires Shaped(rows, heads) && n <= |rows|
    ensures Faithful(ProgressAt(rows, heads, n), Transitions(Cpp, rows[..n], heads), heads)
  {
    hide ProgressAt, RowStream, Transitions, Faithful;
    if n == 0 {
      ProgressStart(rows, heads);
    } else {
      ProgressLaw(rows, heads, n - 1);
      ProgressStep(rows, heads, n - 1);
      StreamStep(rows, heads, n - 1);
      FaithfulStep(ProgressAt(rows, heads, n - 1), Transitions(Cpp, rows[..n - 1], heads),
                   RowStream(rows, heads, n - 1), heads);
    }
  }

  lemma ProgressStart(rows: seq<RawRow>, heads: nat)
    requires Shaped(rows, heads)
    ensures Faithful(ProgressAt(rows, heads, 0), Transitions(Cpp, rows[..0], heads), heads)
  {
  }

  lemma BatchesLaw(rows: seq<RawRow>, heads: nat)
    requires Shaped(rows, heads)
    ensures var bs := Batches(rows, heads);
            && bs != []
            && Concat(bs) == Transitions(Cpp, rows, heads)
            && |bs[|bs| - 1]| < BATCH
            && FullSizes(bs[..|bs| - 1], heads)
  {
    ProgressLaw(rows, heads, |rows|);
    assert rows[..|rows|] == rows;
    var p := ProgressAt(rows, heads, |rows|);
    ConcatSnoc(p.written, p.pending);
  }

  // For the 36 heads of the machine: mid-file batches hold 8192 to 8227 events.
  lemma MachineBatches(rows: seq<RawRow>, k: nat)
    requires Shaped(rows, NUM_HEADS) && k < |Batches(rows, NUM_HEADS)| - 1
    ensures 8192 <= |Batches(rows, NUM_HEADS)[k]| <= 8227
  {
    BatchesLaw(rows, NUM_HEADS);
    var bs := Batches(rows, NUM_HEADS);
    assert bs[k] == bs[..|bs| - 1][k];
  }

  /******* The store decorator *******/

  // Counts the rows the inner store accepted, and beats when one is due.
  class BeatingStore {
    const inner: DuckDbStore
    const every: int
    var written: nat
    var last: int
    var beats: nat

    constructor (inner: DuckDbStore, every: int, now: int)
      ensures this.inner == inner && this.every == every && written == 0 && last == now && beats == 0
    {
      this.inner := inner;
      this.every := every;
      this.written := 0;
      this.last := now;
      this.beats := 0;
    }

    // `failing` stands for any failure of the inner store other than a bad row.
    method Write(events: seq<Event>, failing: bool, now: int) returns (ok: bool)
      requires inner.Valid()
      modifies this`written, this`last, this`beats, inner`table, inner`staging
      ensures inner.Valid()
      ensures ok <==> !failing && Castable(inner.cast, events)
      ensures ok ==> inner.table == InsertAll(old(inner.table), KeyedRows(inner.cast, inner.machine, events))
      ensures !ok ==> inner.table == old(inner.table)
      ensures written == old(written) + if ok then |events| else 0
      ensures var due := ok && now - old(last) >= every;
              last == (if due then now else old(last)) && beats == old(beats) + (if due then 1 else 0)
    {
      ok := false;
      if !failing {
        ok := inner.Write(events);
      }
      if ok {
        written := written + |events|;
        if now - last >= every {
          last := now;
          beats := beats + 1;
        }
      }
    }
  }

  // The time of the last beat before write k, or the start.
  function LastBeat(every: int, start: int, clock: nat -> int, k: nat): int {
    if k == 0 then start
    else
      var last := LastBeat(every, start, clock, k - 1);
      if clock(k - 1) - last >= every then clock(k - 1) else last
  }

  // How many of the first k writes beat.
  function Beats(every: int, start: int, clock: nat -> int, k: nat): nat {
    if k == 0 then 0
    else
      Beats(every, start, clock, k - 1)
      + if clock(k - 1) - LastBeat(every, start, clock, k - 1) >= every then 1 else 0
  }

  // Beats are at least the interval apart, and no accepted write leaves more than
  // an interval since the latest of them.
  lemma {:induction false} BeatsLaw(every: int, start: int, clock: nat -> int, k: nat)
    requires every > 0
    ensures Beats(every, start, clock, k) * every <= LastBeat(every, start, clock, k) - start
    ensures k > 0 ==> clock(k - 1) - LastBeat(every, start, clock, k) < every
    ensures || LastBeat(every, start, clock, k) == start
            || exists i: nat :: i < k && LastBeat(every, start, clock, k) == clock(i)
  {
    if k > 0 {
      BeatsLaw(every, start, clock, k - 1);
      var before := Beats(every, start, clock, k - 1);
      assert (before + 1) * every == before * every + every;
    }
  }

  /******* clean_file *******/

  datatype CleanResult = Cleaned(events: nat) | Unreadable | Threw

  ghost predicate AllCastable(cast: Cast, batches: seq<seq<Event>>) {
    forall i :: 0 <= i < |batches| ==> Castable(cast, batches[i])
  }

  // The table after the given batches went into it.
  ghost function TableAfter(cast: Cast, machine: string, t: Table, batches: seq<seq<Event>>): Table
    requires AllCastable(cast, batches)
  {
    if batches == [] then t
    else
      var n := |batches| - 1;
      InsertAll(TableAfter(cast, machine, t, batches[..n]), KeyedRows(cast, machine, batches[n]))
  }

  lemma TableAfterStep(cast: Cast, machine: string, t: Table, batches: seq<seq<Event>>, i: nat)
    requires i < |batches| && AllCastable(cast, batches[..i]) && Castable(cast, batches[i])
    ensures AllCastable(cast, batches[..i + 1])
    ensures TableAfter(cast, machine, t, batches[..i + 1])
         == InsertAll(TableAfter(cast, machine, t, batches[..i]), KeyedRows(cast, machine, batches[i]))
  {
    assert batches[..i + 1][..i] == batches[..i];
    var more := batches[..i + 1];
    forall j | 0 <= j < |more| ensures Castable(cast, more[j]) {
      if j < i { assert batches[..i][j] == more[j]; }
    }
  }

  lemma {:induction false} CastableConcat(cast: Cast, batches: seq<seq<Event>>)
    requires AllCastable(cast, batches)
    ensures Castable(cast, Concat(batches))
  {
    if batches != [] {
      CastableConcat(cast, batches[..|batches| - 1]);
    }
  }

  // Batch by batch or all at once: the same table.
  lemma {:induction false} BatchingInvisible(cast: Cast, machine: string, t: Table, batches: seq<seq<Event>>)
    requires AllCastable(cast, batches)
    ensures Castable(cast, Concat(batches))
    ensures TableAfter(cast, machine, t, batches) == InsertAll(t, KeyedRows(cast, machine, Concat(batches)))
  {
    CastableConcat(cast, batches);
    if batches != [] {
      var n := |batches| - 1;
      CastableConcat(cast, batches[..n]);
      BatchingInvisible(cast, machine, t, batches[..n]);
      var xs, ys := Concat(batches[..n]), batches[n];
      assert KeyedRows(cast, machine, xs + ys) == KeyedRows(cast, machine, xs) + KeyedRows(cast, machine, ys);
      InsertAppend(t, KeyedRows(cast, machine, xs), KeyedRows(cast, machine, ys));
    }
  }

  // Write k is the first that does not happen or does not work: the store
  // refuses it, a timestamp is malformed, or the reader throws before the last one.
  ghost predicate StopsAt(cast: Cast, torn: bool, refused: nat -> bool, batches: seq<seq<Event>>, k: nat) {
    && k <= |batches|
    && (forall j :: 0 <= j <= k && j < |batches| ==> (j == k <==> Fails(cast, torn, refused, batches, j)))
  }

  ghost predicate Fails(cast: Cast, torn: bool, refused: nat -> bool, batches: seq<seq<Event>>, j: nat)
    requires j < |batches|
  {
    refused(j) || !Castable(cast, batches[j]) || (torn && j == |batches| - 1)
  }

  // `rows` is None when the input cannot be opened; `torn` says that the reader
  // throws after the last of them instead of ending; `refused(k)` that the store
  // fails write k of its own accord; `clock(k)` is the time after that write.
  method CleanFile(rows: Option<seq<RawRow>>, torn: bool, heads: nat, store: BeatingStore, refused: nat -> bool,
                   clock: nat -> int)
    returns (r: CleanResult, ghost accepted: nat)
    requires rows.Some? ==> Shaped(rows.value, heads)
    requires store.inner.Valid() && store.written == 0 && store.beats == 0
    modifies store`written, store`last, store`beats, store.inner`table, store.inner`staging
    ensures store.inner.Valid()
    ensures rows.None? <==> r == Unreadable
    ensures rows.None? ==> store.inner.table == old(store.inner.table) && store.written == 0 && accepted == 0
    ensures store.beats == Beats(store.every, old(store.last), clock, accepted)
    ensures rows.Some? ==>
              var bs := Batches(rows.value, heads);
              && accepted <= |bs| && AllCastable(store.inner.cast, bs[..accepted])
              && store.inner.table == TableAfter(store.inner.cast, store.inner.machine, old(store.inner.table),
                                                 bs[..accepted])
              && store.written == |Concat(bs[..accepted])|
              && (r.Threw? ==> (store.written > 0 <==> accepted > 0))
              && (r.Threw? <==> accepted < |bs|)
              && StopsAt(store.inner.cast, torn, refused, bs, accepted)
              && (r.Cleaned? ==> r.events == |Transitions(Cpp, rows.value, heads)|)
  {
    hide Transitions, RowEvents, ProgressAt, TableAfter, Concat, ObservedEvents, Observed, Beats, LastBeat, StopsAt,
         WroteSoFar, Batches, Castable, AllCastable, InsertAll, KeyedRows;
    accepted := 0;
    NextBeat(store.every, store.last, clock, 0);
    if rows.None? {
      return Unreadable, 0;
    }
    var input := rows.value;
    ghost var bs := Batches(input, heads);
    ghost var cast, machine, t0, start := store.inner.cast, store.inner.machine, store.inner.table, store.last;
    NothingWritten(input, heads, cast, machine, t0);
    var ex := new CapEventExtractor(heads);
    var batch: seq<Event>, n: nat, writes: nat := [], 0, 0;
    for i := 0 to |input|
      invariant ex.heads == heads && fresh(ex) && store.inner.Valid()
      invariant ex.last == if i == 0 then seq(heads, _ => None) else Observed(input[i - 1].count)
      invariant store.beats == Beats(store.every, start, clock, accepted)
      invariant store.last == LastBeat(store.every, start, clock, accepted)
      invariant writes == accepted && forall k :: 0 <= k < accepted ==> !refused(k)
      invariant WroteSoFar(input, heads, cast, machine, t0, i, accepted, batch, n, store.inner.table, store.written)
    {
      ExtractorFollows(input, heads, i, ex.last);
      ProgressStep(input, heads, i);
      ghost var before := batch;
      batch := ex.Process(input[i], batch);
      assert batch == before + RowStream(input, heads, i);
      if |batch| >= BATCH {
        FullBatch(input, heads, cast, machine, t0, i, accepted, before, n, store.inner.table, store.written);
        NextBeat(store.every, start, clock, accepted);
        var ok := store.Write(batch, refused(writes), clock(writes));
        if !ok {
          Stopped(cast, torn, refused, bs, accepted);
          AcceptedHasRows(input, heads, accepted);
          return Threw, accepted;
        }
        accepted := accepted + 1;
        writes := writes + 1;
        n := n + |batch|;
        batch := [];
      } else {
        PartBatch(input, heads, cast, machine, t0, i, accepted, before, n, store.inner.table, store.written);
      }
    }
    LastBatch(input, heads, cast, machine, t0, accepted, batch, n, store.inner.table, store.written);
    AcceptedHasRows(input, heads, accepted);
    if torn {
      Stopped(cast, torn, refused, bs, accepted);
      return Threw, accepted;
    }
    NextBeat(store.every, start, clock, accepted);
    var ok := store.Write(batch, refused(writes), clock(writes));
    if !ok {
      Stopped(cast, torn, refused, bs, accepted);
      return Threw, accepted;
    }
    Stopped(cast, torn, refused, bs, accepted + 1);
    return Cleaned(n + |batch|), accepted + 1;
  }

  lemma Stopped(cast: Cast, torn: bool, refused: nat -> bool, bs: seq<seq<Event>>, k: nat)
    requires k <= |bs| && AllCastable(cast, bs[..k]) && (torn ==> k < |bs|)
    requires forall j :: 0 <= j < k ==> !refused(j)
    requires k < |bs| ==> refused(k) || !Castable(cast, bs[k]) || (torn && k == |bs| - 1)
    ensures StopsAt(cast, torn, refused, bs, k)
  {
    hide Castable;
    forall j | 0 <= j < k ensures Castable(cast, bs[j]) { assert bs[..k][j] == bs[j]; }
  }

  lemma NextBeat(every: int, start: int, clock: nat -> int, k: nat)
    ensures Beats(every, start, clock, 0) == 0 && LastBeat(every, start, clock, 0) == start
    ensures var due := clock(k) - LastBeat(every, start, clock, k) >= every;
            && Beats(every, start, clock, k + 1) == Beats(every, start, clock, k) + (if due then 1 else 0)
            && LastBeat(every, start, clock, k + 1) == if due then clock(k) else LastBeat(every, start, clock, k)
  {
  }

  // A throw leaves only full batches behind, so any accepted batch has rows.
  lemma AcceptedHasRows(rows: seq<RawRow>, heads: nat, accepted: nat)
    requires Shaped(rows, heads) && accepted < |Batches(rows, heads)|
    ensures |Concat(Batches(rows, heads)[..accepted])| > 0 <==> accepted > 0
  {
    var bs := Batches(rows, heads);
    if accepted > 0 {
      BatchesLaw(rows, heads);
      assert bs[..accepted][accepted - 1] == bs[accepted - 1] == bs[..|bs| - 1][accepted - 1];
      hide Batches;
      assert |bs[accepted - 1]| >= BATCH;
    }
  }

  // The state of clean_file's loop after i rows.
  ghost predicate WroteSoFar(rows: seq<RawRow>, heads: nat, cast: Cast, machine: string, t0: Table, i: nat,
                             accepted: nat, batch: seq<Event>, n: nat, t: Table, written: nat)
    requires Shaped(rows, heads) && i <= |rows|
  {
    var p := ProgressAt(rows, heads, i);
    && p.written <= Batches(rows, heads) && accepted == |p.written| && batch == p.pending
    && n == |Concat(p.written)| == written
    && AllCastable(cast, p.written) && t == TableAfter(cast, machine, t0, p.written)
  }

  lemma NothingWritten(rows: seq<RawRow>, heads: nat, cast: Cast, machine: string, t0: Table)
    requires Shaped(rows, heads)
    ensures WroteSoFar(rows, heads, cast, machine, t0, 0, 0, [], 0, t0, 0)
  {
  }

  lemma ExtractorFollows(rows: seq<RawRow>, heads: nat, i: nat, last: seq<Option<int>>)
    requires Shaped(rows, heads) && i < |rows|
    requires last == if i == 0 then seq(heads, _ => None) else Observed(rows[i - 1].count)
    ensures |last| == heads && ObservedEvents(Cpp, last, rows[i], heads) == RowStream(rows, heads, i)
  {
    if i == 0 {
      NothingObserved(Cpp, last, rows[0], heads);
    } else {
      ObservedIsPrevious(Cpp, rows[i - 1].count, rows[i], heads);
    }
  }

  // Without a write the batch just grows.
  lemma PartBatch(rows: seq<RawRow>, heads: nat, cast: Cast, machine: string, t0: Table, i: nat,
                  accepted: nat, batch: seq<Event>, n: nat, t: Table, written: nat)
    requires Shaped(rows, heads) && i < |rows|
    requires WroteSoFar(rows, heads, cast, machine, t0, i, accepted, batch, n, t, written)
    requires |batch + RowStream(rows, heads, i)| < BATCH
    ensures WroteSoFar(rows, heads, cast, machine, t0, i + 1, accepted, batch + RowStream(rows, heads, i), n, t,
                       written)
  {
    ProgressStep(rows, heads, i);
    hide ProgressAt, TableAfter, Concat, Batches, RowStream, AllCastable;
  }

  // Writing a full batch takes the loop from row i to row i + 1.
  lemma FullBatch(rows: seq<RawRow>, heads: nat, cast: Cast, machine: string, t0: Table, i: nat,
                  accepted: nat, batch: seq<Event>, n: nat, t: Table, written: nat)
    requires Shaped(rows, heads) && i < |rows|
    requires WroteSoFar(rows, heads, cast, machine, t0, i, accepted, batch, n, t, written)
    requires |batch + RowStream(rows, heads, i)| >= BATCH
    ensures var more := batch + RowStream(rows, heads, i);
            var bs := Batches(rows, heads);
            && accepted < |bs| && bs[accepted] == more && AllCastable(cast, bs[..accepted])
                && t == TableAfter(cast, machine, t0, bs[..accepted])
            && written == |Concat(bs[..accepted])|
            && (Castable(cast, more) ==>
                  WroteSoFar(rows, heads, cast, machine, t0, i + 1, accepted + 1, [], n + |more|,
                             InsertAll(t, KeyedRows(cast, machine, more)), written + |more|))
  {
    var more := batch + RowStream(rows, heads, i);
    var bs := Batches(rows, heads);
    var p := ProgressAt(rows, heads, i);
    ProgressMonotone(rows, heads, i + 1, |rows|);
    ProgressStep(rows, heads, i);
    hide ProgressAt, TableAfter, Concat;
    var q := ProgressAt(rows, heads, i + 1);
    assert q.written == p.written + [more] && q.written <= bs;
    assert bs[..accepted] == p.written && bs[accepted] == q.written[accepted] == more
           && bs[..accepted + 1] == q.written;
    ConcatSnoc(p.written, more);
    if Castable(cast, more) {
      TableAfterStep(cast, machine, t0, bs, accepted);
    }
  }

  // The final partial batch completes the file.
  lemma LastBatch(rows: seq<RawRow>, heads: nat, cast: Cast, machine: string, t0: Table,
                  accepted: nat, batch: seq<Event>, n: nat, t: Table, written: nat)
    requires Shaped(rows, heads) && WroteSoFar(rows, heads, cast, machine, t0, |rows|, accepted, batch, n, t, written)
    ensures var bs := Batches(rows, heads);
            && accepted == |bs| - 1 && bs[accepted] == batch
            && AllCastable(cast, bs[..accepted]) && t == TableAfter(cast, machine, t0, bs[..accepted])
            && written == |Concat(bs[..accepted])|
            && n + |batch| == |Transitions(Cpp, rows, heads)|
            && bs[..accepted + 1] == bs && written + |batch| == |Concat(bs)|
            && (Castable(cast, batch) ==>
                  AllCastable(cast, bs) && InsertAll(t, KeyedRows(cast, machine, batch))
                      == TableAfter(cast, machine, t0, bs))
  {
    var bs := Batches(rows, heads);
    var p := ProgressAt(rows, heads, |rows|);
    BatchesLaw(rows, heads);
    hide ProgressAt, TableAfter, Concat;
    assert bs[..accepted] == p.written && bs[..accepted + 1] == bs;
    ConcatSnoc(p.written, batch);
    if Castable(cast, batch) {
      TableAfterStep(cast, machine, t0, bs, accepted);
    }
  }

  lemma {:induction false} ProgressMonotone(rows: seq<RawRow>, heads: nat, i: nat, n: nat)
    requires Shaped(rows, heads) && i <= n <= |rows|
    ensures ProgressAt(rows, heads, i).written <= ProgressAt(rows, heads, n).written
    decreases n
  {
    hide ProgressAt, RowStream;
    if i < n {
      ProgressMonotone(rows, heads, i, n - 1);
      ProgressStep(rows, heads, n - 1);
    }
  }

  /******* Any sequence of writes *******/

  // The batches of which every timestamp can be cast.
  ghost function Kept(cast: Cast, batches: seq<seq<Event>>): seq<seq<Event>> {
    if batches == [] then []
    else
      var b := batches[|batches| - 1];
      Kept(cast, batches[..|batches| - 1]) + (if Castable(cast, b) then [b] else [])
  }

  // Write i took the table from tables[i] to tables[i + 1].
  ghost predicate Writes(cast: Cast, machine: string, batches: seq<seq<Event>>, tables: seq<Table>) {
    && |tables| == |batches| + 1
    && forall i :: 0 <= i < |batches| ==> Wrote(cast, machine, tables[i], batches[i], tables[i + 1])
  }

  lemma KeptMore(cast: Cast, machine: string, t: Table, kept: seq<seq<Event>>, b: seq<Event>)
    requires AllCastable(cast, kept) && Castable(cast, b)
    ensures AllCastable(cast, kept + [b])
    ensures TableAfter(cast, machine, t, kept + [b]) == InsertAll(TableAfter(cast, machine, t, kept),
                                                                  KeyedRows(cast, machine, b))
  {
    assert (kept + [b])[..|kept|] == kept;
  }

  lemma {:induction false} KeptTable(cast: Cast, machine: string, batches: seq<seq<Event>>, tables: seq<Table>)
    requires Writes(cast, machine, batches, tables)
    ensures AllCastable(cast, Kept(cast, batches))
    ensures tables[|batches|] == TableAfter(cast, machine, tables[0], Kept(cast, batches))
  {
    hide Castable, AllCastable, TableAfter, KeyedRows, InsertAll;
    if batches == [] {
      NothingKept(cast, machine, tables[0]);
    } else {
      var n := |batches| - 1;
      var fewer := tables[..n + 1];
      forall i | 0 <= i < n ensures Wrote(cast, machine, fewer[i], batches[..n][i], fewer[i + 1]) {
        assert Wrote(cast, machine, tables[i], batches[i], tables[i + 1]);
      }
      KeptTable(cast, machine, batches[..n], fewer);
      assert Wrote(cast, machine, tables[n], batches[n], tables[n + 1]);
      if Castable(cast, batches[n]) {
        KeptMore(cast, machine, tables[0], Kept(cast, batches[..n]), batches[n]);
      } else {
        assert Kept(cast, batches[..n]) + [] == Kept(cast, batches[..n]);
      }
    }
  }

  lemma NothingKept(cast: Cast, machine: string, t: Table)
    ensures AllCastable(cast, []) && TableAfter(cast, machine, t, []) == t
  {
  }

  // After any sequence of writes, malformed ones among them wherever they may
  // be, the table is the insert-or-ignore fold of the well-formed batches alone.
  lemma WritesFold(cast: Cast, machine: string, batches: seq<seq<Event>>, tables: seq<Table>)
    requires Writes(cast, machine, batches, tables)
    ensures var events := Concat(Kept(cast, batches));
            Castable(cast, events) && tables[|batches|] == InsertAll(tables[0], KeyedRows(cast, machine, events))
  {
    KeptTable(cast, machine, batches, tables);
    BatchingInvisible(cast, machine, tables[0], Kept(cast, batches));
    hide Castable, AllCastable, TableAfter, KeyedRows, InsertAll, Concat, Kept;
  }

  // Re-running a file whose first batches already landed gives exactly the
  // table of one clean run.
  lemma RetriedFileIsClean(cast: Cast, machine: string, t: Table, batches: seq<seq<Event>>, k: nat)
    requires AllCastable(cast, batches) && k <= |batches|
    ensures AllCastable(cast, batches[..k])
    ensures TableAfter(cast, machine, TableAfter(cast, machine, t, batches[..k]), batches)
            == TableAfter(cast, machine, t, batches)
  {
    CastableParts(cast, batches, k);
    hide TableAfter, Concat, InsertAll, AllCastable, Castable, KeyedRows;
    var some := TableAfter(cast, machine, t, batches[..k]);
    BatchingInvisible(cast, machine, t, batches);
    BatchingInvisible(cast, machine, t, batches[..k]);
    BatchingInvisible(cast, machine, some, batches);
    CastableConcat(cast, batches[k..]);
    ConcatSplit(batches, k);
    var xs, ys := Concat(batches[..k]), Concat(batches[k..]);
    KeyedAppend(cast, machine, xs, ys);
    RetryCompletes(t, KeyedRows(cast, machine, xs), KeyedRows(cast, machine, ys));
  }

  lemma CastableParts(cast: Cast, batches: seq<seq<Event>>, k: nat)
    requires AllCastable(cast, batches) && k <= |batches|
    ensures AllCastable(cast, batches[..k]) && AllCastable(cast, batches[k..])
  {
    var early, late := batches[..k], batches[k..];
    forall j | 0 <= j < |early| ensures Castable(cast, early[j]) { assert early[j] == batches[j]; }
    forall j | 0 <= j < |late| ensures Castable(cast, late[j]) { assert late[j] == batches[k + j]; }
  }

  lemma KeyedAppend(cast: Cast, machine: string, xs: seq<Event>, ys: seq<Event>)
    requires Castable(cast, xs) && Castable(cast, ys)
    ensures Castable(cast, xs + ys)
    ensures KeyedRows(cast, machine, xs + ys) == KeyedRows(cast, machine, xs) + KeyedRows(cast, machine, ys)
  {
  }

  lemma {:induction false} ConcatSplit(batches: seq<seq<Event>>, k: nat)
    requires k <= |batches|
    ensures Concat(batches) == Concat(batches[..k]) + Concat(batches[k..])
  {
    if k == |batches| {
      assert batches[..k] == batches && batches[k..] == [];
    } else {
      var n := |batches| - 1;
      ConcatSplit(batches[..n], k);
      assert batches[..n][..k] == batches[..k] && batches[..n][k..] == batches[k..][..n - k];
      assert batches[k..][n - k] == batches[n];
    }
  }
}
