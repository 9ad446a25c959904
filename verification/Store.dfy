// The keyed event table and the DuckDB store on top of it: batched
// insert-or-ignore through a staging table, and unions of other stores.
module Store {
  import opened Protocol
  import opened Extractor
  import opened Decimal

  // What identifies an observation; everything else is payload.
  datatype Key = Key(machine: string, head: int, ts: int)

  datatype Row = Row(capSeq: int, torque: real, status: real, delta: int, isFault: bool, aggregated: bool,
                     isReset: bool)

  datatype KeyedRow = KeyedRow(key: Key, row: Row)

  type Table = map<Key, Row>

  // The database's strict VARCHAR-to-TIMESTAMP cast.
  type Cast = string -> Option<int>

  /******* The algebra of insert-or-ignore *******/

  // Row by row, the first row of a key wins.
  function InsertAll(t: Table, rows: seq<KeyedRow>): Table {
    if rows == [] then t
    else
      var u := InsertAll(t, rows[..|rows| - 1]);
      var r := rows[|rows| - 1];
      if r.key in u then u else u[r.key := r.row]
  }

  ghost function KeysOf(rows: seq<KeyedRow>): set<Key> {
    set r | r in rows :: r.key
  }

  lemma {:induction false} InsertKeys(t: Table, rows: seq<KeyedRow>)
    ensures InsertAll(t, rows).Keys == t.Keys + KeysOf(rows)
  {
    if rows != [] {
      var n := |rows| - 1;
      InsertKeys(t, rows[..n]);
      assert rows == rows[..n] + [rows[n]];
    }
  }

  lemma {:induction false} InsertAppend(t: Table, xs: seq<KeyedRow>, ys: seq<KeyedRow>)
    ensures InsertAll(t, xs + ys) == InsertAll(InsertAll(t, xs), ys)
  {
    if ys == [] {
      assert xs + ys == xs;
    } else {
      assert (xs + ys)[..|xs + ys| - 1] == xs + ys[..|ys| - 1];
      InsertAppend(t, xs, ys[..|ys| - 1]);
    }
  }

  // Inserting into a table is overlaying what is already there on a fresh table.
  lemma {:induction false} InsertOverlay(t: Table, rows: seq<KeyedRow>)
    ensures InsertAll(t, rows) == InsertAll(map[], rows) + t
  {
    if rows != [] {
      InsertOverlay(t, rows[..|rows| - 1]);
    }
  }

  // Rows whose keys are already present change nothing.
  lemma {:induction false} InsertPresent(t: Table, rows: seq<KeyedRow>)
    requires KeysOf(rows) <= t.Keys
    ensures InsertAll(t, rows) == t
  {
    if rows != [] {
      var n := |rows| - 1;
      assert rows == rows[..n] + [rows[n]];
      InsertPresent(t, rows[..n]);
      assert rows[n] in rows && rows[n].key in KeysOf(rows);
    }
  }

  // Re-cleaning after a partial run completes the file: a prefix followed by
  // the whole gives what the whole alone gives, whatever was there before.
  lemma RetryCompletes(t: Table, prefix: seq<KeyedRow>, rest: seq<KeyedRow>)
    ensures InsertAll(InsertAll(t, prefix), prefix + rest) == InsertAll(t, prefix + rest)
  {
    InsertAppend(InsertAll(t, prefix), prefix, rest);
    InsertAppend(t, prefix, rest);
    InsertKeys(t, prefix);
    InsertPresent(InsertAll(t, prefix), prefix);
  }

  // Where rows agree with the table and with each other, the order is invisible.
  ghost predicate AgreesWith(t: Table, rows: seq<KeyedRow>) {
    forall r :: r in rows && r.key in t ==> t[r.key] == r.row
  }

  ghost predicate SelfConsistent(rows: seq<KeyedRow>) {
    forall r, s :: r in rows && s in rows && r.key == s.key ==> r.row == s.row
  }

  lemma {:induction false} InsertHolds(t: Table, rows: seq<KeyedRow>)
    requires AgreesWith(t, rows) && SelfConsistent(rows)
    ensures forall r :: r in rows ==> r.key in InsertAll(t, rows) && InsertAll(t, rows)[r.key] == r.row
    ensures forall k :: k in t ==> k in InsertAll(t, rows) && InsertAll(t, rows)[k] == t[k]
  {
    if rows != [] {
      var n := |rows| - 1;
      assert rows == rows[..n] + [rows[n]];
      assert rows[n] in rows;
      InsertHolds(t, rows[..n]);
      var u := InsertAll(t, rows[..n]);
      InsertKeys(t, rows[..n]);
      if rows[n].key in u && rows[n].key !in t {
        var r :| r in rows[..n] && r.key == rows[n].key;
        assert r in rows;
      }
    }
  }

  // Of several rows with one new key, the first is kept.
  lemma {:induction false} FirstWins(t: Table, rows: seq<KeyedRow>, i: nat)
    requires i < |rows| && rows[i].key !in t && forall j :: 0 <= j < i ==> rows[j].key != rows[i].key
    ensures rows[i].key in InsertAll(t, rows) && InsertAll(t, rows)[rows[i].key] == rows[i].row
  {
    var n := |rows| - 1;
    if i < n {
      FirstWins(t, rows[..n], i);
    } else {
      InsertKeys(t, rows[..n]);
      assert rows[i].key !in KeysOf(rows[..n]);
    }
  }

  // Without any agreement, the keys are always there.
  lemma InsertedKeysStay(t: Table, rows: seq<KeyedRow>)
    ensures KeysOf(rows) <= InsertAll(t, rows).Keys && t.Keys <= InsertAll(t, rows).Keys
    ensures forall k :: k in t ==> InsertAll(t, rows)[k] == t[k]
  {
    InsertKeys(t, rows);
    InsertOverlay(t, rows);
  }

  /******* Unions of tables *******/

  // base wins, every other value comes from some table that holds the key.
  ghost predicate IsUnion(base: Table, tables: seq<Table>, t: Table) {
    && (forall k :: k in base ==> k in t && t[k] == base[k])
    && (forall i, k :: 0 <= i < |tables| && k in tables[i] ==> k in t)
    && (forall k :: k in t && k !in base ==> exists i :: 0 <= i < |tables| && k in tables[i] && t[k] == tables[i][k])
  }

  ghost predicate Agree(a: Table, b: Table) {
    forall k :: k in a && k in b ==> a[k] == b[k]
  }

  ghost predicate AllAgree(base: Table, tables: seq<Table>) {
    && (forall i :: 0 <= i < |tables| ==> Agree(base, tables[i]))
    && (forall i, j :: 0 <= i < |tables| && 0 <= j < |tables| ==> Agree(tables[i], tables[j]))
  }

  lemma UnionHolds(base: Table, tables: seq<Table>, t: Table)
    requires AllAgree(base, tables) && IsUnion(base, tables, t)
    ensures forall i, k :: 0 <= i < |tables| && k in tables[i] ==> k in t && t[k] == tables[i][k]
  {
    forall i, k | 0 <= i < |tables| && k in tables[i] ensures k in t && t[k] == tables[i][k] {
      if k in base {
        assert Agree(base, tables[i]);
      } else {
        var j :| 0 <= j < |tables| && k in tables[j] && t[k] == tables[j][k];
        assert Agree(tables[j], tables[i]);
      }
    }
  }

  lemma AgreeReordered(base: Table, ts: seq<Table>, us: seq<Table>)
    requires AllAgree(base, ts) && forall t :: t in us ==> t in ts
    ensures AllAgree(base, us)
  {
    hide Agree;
    forall i, j | 0 <= i < |us| && 0 <= j < |us| ensures Agree(base, us[i]) && Agree(us[i], us[j]) {
      assert us[i] in ts && us[j] in ts;
      var a :| 0 <= a < |ts| && ts[a] == us[i];
      var b :| 0 <= b < |ts| && ts[b] == us[j];
    }
  }

  lemma UnionWithin(base: Table, ts: seq<Table>, us: seq<Table>, x: Table, y: Table, k: Key)
    requires IsUnion(base, ts, x) && IsUnion(base, us, y) && k in x
    requires forall t :: t in ts ==> t in us
    requires forall j, k :: 0 <= j < |us| && k in us[j] ==> k in y && y[k] == us[j][k]
    ensures k in y && x[k] == y[k]
  {
    if k !in base {
      var i :| 0 <= i < |ts| && k in ts[i] && x[k] == ts[i][k];
      assert ts[i] in us;
      var j :| 0 <= j < |us| && us[j] == ts[i];
      assert k in us[j];
    }
  }

  // When shared keys agree, a union holds every row of every table and is the
  // only table that does and holds nothing else: order and method are invisible.
  lemma UnionUnique(base: Table, ts: seq<Table>, us: seq<Table>, x: Table, y: Table)
    requires AllAgree(base, ts) && (forall t :: t in ts <==> t in us)
    requires IsUnion(base, ts, x) && IsUnion(base, us, y)
    ensures x == y
  {
    AgreeReordered(base, ts, us);
    UnionHolds(base, ts, x);
    UnionHolds(base, us, y);
    hide *;
    forall k | k in x ensures k in y && x[k] == y[k] { UnionWithin(base, ts, us, x, y, k); }
    forall k | k in y ensures k in x && x[k] == y[k] { UnionWithin(base, us, ts, y, x, k); }
  }

  // Merging one more source into a union.
  lemma UnionStep(base: Table, tables: seq<Table>, t: Table, s: Table)
    requires IsUnion(base, tables, t)
    ensures IsUnion(base, tables + [s], s + t)
  {
    var all := tables + [s];
    forall i, k | 0 <= i < |all| && k in all[i] ensures k in s + t {}
    forall k | k in s + t && k !in base ensures exists i :: 0 <= i < |all| && k in all[i] && (s + t)[k] == all[i][k] {
      if k in t {
        var i :| 0 <= i < |tables| && k in tables[i] && t[k] == tables[i][k];
        assert all[i] == tables[i];
      } else {
        assert all[|tables|] == s;
      }
    }
  }

  // Starting over from a partial union of some of the tables changes nothing.
  lemma UnionResumed(base: Table, some: seq<Table>, mid: Table, tables: seq<Table>, t: Table)
    requires IsUnion(base, some, mid) && IsUnion(mid, tables, t)
    requires forall s :: s in some ==> s in tables
    ensures IsUnion(base, tables, t)
  {
    forall k | k in t && k !in base ensures exists i :: 0 <= i < |tables| && k in tables[i] && t[k] == tables[i][k] {
      if k in mid {
        var j :| 0 <= j < |some| && k in some[j] && mid[k] == some[j][k];
        assert some[j] in tables;
        var i :| 0 <= i < |tables| && tables[i] == some[j];
      }
    }
  }

  /******* The store *******/

  datatype Staged = Staged(machine: string, head: int, ts: string, row: Row)

  function Stage(machine: string, e: Event): Staged {
    Staged(machine, e.head, e.ts, Row(e.capSeq, e.torque, e.status, e.delta, e.isFault, e.aggregated, e.reset))
  }

  predicate Castable(cast: Cast, events: seq<Event>) {
    forall i :: 0 <= i < |events| ==> cast(events[i].ts).Some?
  }

  function Keyed(cast: Cast, machine: string, e: Event): KeyedRow
    requires cast(e.ts).Some?
  {
    KeyedRow(Key(machine, e.head, cast(e.ts).value), Stage(machine, e).row)
  }

  function KeyedRows(cast: Cast, machine: string, events: seq<Event>): seq<KeyedRow>
    requires Castable(cast, events)
  {
    seq(|events|, i requires 0 <= i < |events| => Keyed(cast, machine, events[i]))
  }

  lemma KeyedStep(cast: Cast, machine: string, events: seq<Event>, i: nat)
    requires i < |events| && Castable(cast, events[..i + 1])
    ensures Castable(cast, events[..i]) && cast(events[i].ts).Some?
    ensures KeyedRows(cast, machine, events[..i + 1]) == KeyedRows(cast, machine, events[..i])
            + [Keyed(cast, machine, events[i])]
    ensures KeyedRows(cast, machine, events[..i + 1])[..i] == KeyedRows(cast, machine, events[..i])
  {
    assert events[..i + 1][i] == events[i];
    assert forall j :: 0 <= j < i ==> events[..i + 1][j] == events[..i][j];
  }

  // Two events share a key exactly when they are the same head at the same time.
  lemma KeysApart(cast: Cast, machine: string, e: Event, f: Event)
    requires cast(e.ts).Some? && cast(f.ts).Some?
    ensures Keyed(cast, machine, e).key == Keyed(cast, machine, f).key <==> e.head == f.head && cast(e.ts) == cast(f.ts)
  {
  }

  ghost predicate Shows(row: Row, e: Event) {
    && row.capSeq == e.capSeq && row.torque == e.torque && row.status == e.status && row.delta == e.delta
    && row.isFault == e.isFault && row.aggregated == e.aggregated && row.isReset == e.reset
  }

  // The event's own row is in the table, under its machine, head and time.
  ghost predicate Stored(cast: Cast, machine: string, e: Event, t: Table) {
    && cast(e.ts).Some? && Key(machine, e.head, cast(e.ts).value) in t
    && Shows(t[Key(machine, e.head, cast(e.ts).value)], e)
  }

  ghost predicate SameObservation(cast: Cast, e: Event, f: Event) {
    e.head == f.head && cast(e.ts) == cast(f.ts)
  }

  ghost predicate Apart(cast: Cast, events: seq<Event>) {
    forall i, j :: 0 <= i < j < |events| ==> !SameObservation(cast, events[i], events[j])
  }

  // Some event of the list is what the row under k shows.
  ghost predicate Explained(cast: Cast, machine: string, events: seq<Event>, k: Key, row: Row) {
    exists i :: 0 <= i < |events| && cast(events[i].ts) == Some(k.ts) && k == Key(machine, events[i].head, k.ts)
                && Shows(row, events[i])
  }

  // Into an empty table an event goes as its own row, unless an earlier event is
  // the same observation; and nothing else is there.
  lemma FreshTable(cast: Cast, machine: string, events: seq<Event>)
    requires Castable(cast, events)
    ensures var t := InsertAll(map[], KeyedRows(cast, machine, events));
            && (forall i :: 0 <= i < |events|
                  && (forall j :: 0 <= j < i ==> !SameObservation(cast, events[j], events[i]))
                  ==> Stored(cast, machine, events[i], t))
            && (forall k :: k in t ==> Explained(cast, machine, events, k, t[k]))
  {
    hide InsertAll;
    var rows := KeyedRows(cast, machine, events);
    var t := InsertAll(map[], rows);
    InsertKeys(map[], rows);
    forall i | 0 <= i < |events| && forall j :: 0 <= j < i ==> !SameObservation(cast, events[j], events[i])
      ensures Stored(cast, machine, events[i], t)
    {
      forall j | 0 <= j < i ensures rows[j].key != rows[i].key {
        KeysApart(cast, machine, events[j], events[i]);
      }
      FirstWins(map[], rows, i);
    }
    forall k | k in t ensures Explained(cast, machine, events, k, t[k]) {
      var i := FirstOf(rows, k);
      FirstWins(map[], rows, i);
      assert rows[i].key == k && Shows(t[k], events[i]);
    }
  }

  lemma {:induction false} FirstOf(rows: seq<KeyedRow>, k: Key) returns (i: nat)
    requires k in KeysOf(rows)
    ensures i < |rows| && rows[i].key == k && forall j :: 0 <= j < i ==> rows[j].key != k
  {
    i := 0;
    while rows[i].key != k
      invariant i < |rows| && forall j :: 0 <= j < i ==> rows[j].key != k
      decreases |rows| - i
    {
      var r :| r in rows && r.key == k;
      i := i + 1;
      assert i < |rows|;
    }
  }

  // A clean run's table has one row for each event exactly when no two events are
  // the same observation, and then every column of every event can be read back.
  lemma CleanTable(cast: Cast, machine: string, events: seq<Event>)
    requires Castable(cast, events)
    ensures var t := InsertAll(map[], KeyedRows(cast, machine, events));
            && (|t| == |events| <==> Apart(cast, events))
            && (Apart(cast, events) ==> forall i :: 0 <= i < |events| ==> Stored(cast, machine, events[i], t))
  {
    var rows := KeyedRows(cast, machine, events);
    var t := InsertAll(map[], rows);
    InsertKeys(map[], rows);
    assert |t| == |t.Keys| && t.Keys == KeysOf(rows);
    DistinctCount(rows);
    ApartKeys(cast, machine, events);
    FreshTable(cast, machine, events);
    hide InsertAll, KeysOf, Stored, KeyedRows, Explained, AllDistinct;
  }

  lemma ApartKeys(cast: Cast, machine: string, events: seq<Event>)
    requires Castable(cast, events)
    ensures var rows := KeyedRows(cast, machine, events);
            Apart(cast, events) <==> AllDistinct(rows)
  {
    var rows := KeyedRows(cast, machine, events);
    if Apart(cast, events) {
      forall i, j | 0 <= i < j < |rows| ensures rows[i].key != rows[j].key {
        KeysApart(cast, machine, events[i], events[j]);
      }
    } else {
      var i, j :| 0 <= i < j < |events| && SameObservation(cast, events[i], events[j]);
      KeysApart(cast, machine, events[i], events[j]);
      assert rows[i].key == rows[j].key;
    }
  }

  ghost predicate AllDistinct(rows: seq<KeyedRow>) {
    forall i, j :: 0 <= i < j < |rows| ==> rows[i].key != rows[j].key
  }

  lemma {:induction false} DistinctCount(rows: seq<KeyedRow>)
    ensures |KeysOf(rows)| <= |rows|
    ensures |KeysOf(rows)| == |rows| <==> AllDistinct(rows)
  {
    if rows == [] {
      assert KeysOf(rows) == {};
    } else {
      DistinctCount(rows[..|rows| - 1]);
      LastKey(rows);
      OneMoreDistinct(rows);
      hide KeysOf, AllDistinct;
    }
  }

  lemma OneMoreDistinct(rows: seq<KeyedRow>)
    requires rows != []
    ensures var n, less := |rows| - 1, rows[..|rows| - 1];
            AllDistinct(rows) <==> AllDistinct(less) && rows[n].key !in KeysOf(less)
  {
    var n, less := |rows| - 1, rows[..|rows| - 1];
    if rows[n].key in KeysOf(less) {
      var i := FirstOf(less, rows[n].key);
      assert rows[i].key == rows[n].key;
    } else {
      forall i | 0 <= i < n ensures rows[i].key != rows[n].key { assert less[i] in less; }
    }
    assert forall i :: 0 <= i < n ==> rows[i] == less[i];
  }

  lemma LastKey(rows: seq<KeyedRow>)
    requires rows != []
    ensures var n, less := |rows| - 1, rows[..|rows| - 1];
            |KeysOf(rows)| == |KeysOf(less)| + if rows[n].key in KeysOf(less) then 0 else 1
  {
    var n, less := |rows| - 1, rows[..|rows| - 1];
    KeysMore(less, rows[n]);
    assert rows == less + [rows[n]];
    AddOne(KeysOf(less), rows[n].key);
    hide KeysOf;
  }

  lemma KeysMore(less: seq<KeyedRow>, r: KeyedRow)
    ensures KeysOf(less + [r]) == KeysOf(less) + {r.key}
  {
    assert r in less + [r];
  }

  lemma AddOne(keys: set<Key>, k: Key)
    ensures |keys + {k}| == |keys| + if k in keys then 0 else 1
  {
    if k in keys {
      assert keys + {k} == keys;
    }
  }

  // What one write does to the table: all of its rows or none.
  ghost predicate Wrote(cast: Cast, machine: string, t: Table, events: seq<Event>, u: Table) {
    && (Castable(cast, events) ==> u == InsertAll(t, KeyedRows(cast, machine, events)))
    && (!Castable(cast, events) ==> u == t)
  }

  // Another store's file: attachable with a readable table, attachable but
  // broken inside, or not attachable at all.
  datatype Source = Readable(table: Table) | Broken | Missing

  ghost predicate AllReadable(sources: seq<Source>) {
    forall i :: 0 <= i < |sources| ==> sources[i].Readable?
  }

  // The tables of the readable sources, in order.
  ghost function Tables(sources: seq<Source>): seq<Table> {
    if sources == [] then []
    else
      var s := sources[|sources| - 1];
      Tables(sources[..|sources| - 1]) + (if s.Readable? then [s.table] else [])
  }

  lemma {:induction false} TablesMember(sources: seq<Source>, t: Table)
    ensures t in Tables(sources) <==> Readable(t) in sources
  {
    if sources != [] {
      var n := |sources| - 1;
      assert sources == sources[..n] + [sources[n]];
      TablesMember(sources[..n], t);
    }
  }

  class DuckDbStore {
    const machine: string
    const cast: Cast
    var table: Table
    var staging: seq<Staged>
    var attached: set<string>

    // Between calls nothing is staged and no other database is attached.
    ghost predicate Valid()
      reads this
    {
      staging == [] && attached == {}
    }

    // Opening a file clears whatever a crashed run left staged in it.
    constructor (image: Table, leftovers: seq<Staged>, machine: string, cast: Cast)
      ensures Valid() && table == image && this.machine == machine && this.cast == cast
    {
      this.machine := machine;
      this.cast := cast;
      this.table := image;
      this.staging := leftovers;
      this.attached := {};
      new;
      staging := [];
    }

    // INSERT OR IGNORE ... SELECT ... CAST(ts) FROM staging: one statement, so a
    // failing cast leaves the table as it was.
    method InsertStaged() returns (ok: bool)
      modifies this`table
      ensures ok <==> forall i :: 0 <= i < |staging| ==> cast(staging[i].ts).Some?
      ensures !ok ==> table == old(table)
      ensures ok ==> forall events :: Castable(cast, events) && |events| == |staging|
                       && (forall i :: 0 <= i < |events| ==> Stage(machine, events[i]) == staging[i])
                       ==> table == InsertAll(old(table), KeyedRows(cast, machine, events))
    {
      var work := table;
      ghost var rows: seq<KeyedRow> := [];
      for i := 0 to |staging|
        invariant forall j :: 0 <= j < i ==> cast(staging[j].ts).Some?
        invariant |rows| == i && forall j :: 0 <= j < i ==>
                rows[j] == KeyedRow(Key(staging[j].machine, staging[j].head, cast(staging[j].ts).value), staging[j].row)
        invariant work == InsertAll(table, rows)
        invariant table == old(table)
      {
        var s := staging[i];
        var at := cast(s.ts);
        if at.None? {
          return false;
        }
        var key := Key(s.machine, s.head, at.value);
        ghost var next := rows + [KeyedRow(key, s.row)];
        assert next[..i] == rows;
        if key !in work {
          work := work[key := s.row];
        }
        rows := next;
      }
      table := work;
      forall events | Castable(cast, events) && |events| == |staging|
          && (forall i :: 0 <= i < |events| ==> Stage(machine, events[i]) == staging[i])
        ensures table == InsertAll(old(table), KeyedRows(cast, machine, events))
      {
        assert KeyedRows(cast, machine, events) == rows;
      }
      return true;
    }

    // All or nothing: on a malformed timestamp the table is untouched and the
    // staged rows are discarded, so the next write is not poisoned.
    method Write(events: seq<Event>) returns (ok: bool)
      requires Valid()
      modifies this`table, this`staging
      ensures Valid()
      ensures ok <==> Castable(cast, events)
      ensures Wrote(cast, machine, old(table), events, table)
    {
      if events == [] {
        return true;
      }
      for i := 0 to |events|
        invariant table == old(table)
        invariant |staging| == i && forall j :: 0 <= j < i ==> staging[j] == Stage(machine, events[j])
      {
        staging := staging + [Stage(machine, events[i])];
      }
      var snapshot := table;   // BEGIN TRANSACTION
      ok := InsertStaged();
      if !ok {
        table := snapshot;     // ROLLBACK; the appended rows were never inside it
      }
      staging := [];
      assert ok <==> Castable(cast, events);
    }

    method Attach(alias: string, source: Source) returns (ok: bool)
      modifies this`attached
      ensures ok <==> !source.Missing? && alias !in old(attached)
      ensures attached == if ok then old(attached) + {alias} else old(attached)
    {
      ok := !source.Missing? && alias !in attached;
      if ok {
        attached := attached + {alias};
      }
    }

    method Detach(alias: string)
      modifies this`attached
      ensures attached == old(attached) - {alias}
    {
      attached := attached - {alias};
    }

    // INSERT OR IGNORE ... SELECT ... FROM another table, row by row in any order.
    method InsertFrom(other: Table)
      modifies this`table
      ensures table == other + old(table)
    {
      var todo := other.Keys;
      while todo != {}
        invariant todo <= other.Keys
        invariant table == (map k | k in other.Keys - todo :: other[k]) + old(table)
        decreases todo
      {
        var k :| k in todo;
        if k !in table {
          table := table[k := other[k]];
        }
        todo := todo - {k};
      }
    }

    // A source that cannot be read throws, and leaves no alias behind.
    method MergeFrom(source: Source) returns (ok: bool)
      requires Valid()
      modifies this`table, this`attached
      ensures Valid()
      ensures ok <==> source.Readable?
      ensures table == if ok then source.table + old(table) else old(table)
    {
      ok := Attach("src", source);
      if !ok {
        return;
      }
      if source.Broken? {
        Detach("src");
        return false;
      }
      InsertFrom(source.table);
      Detach("src");
    }

    // SELECT DISTINCT ON the union of the sources: which of several rows of one
    // key survives is the database's choice.
    method InsertDistinct(sources: seq<Source>)
      requires table == map[] && AllReadable(sources)
      modifies this`table
      ensures IsUnion(map[], Tables(sources), table)
    {
      var keys: set<Key> := {};
      for i := 0 to |sources|
        invariant keys == set j, k | 0 <= j < i && k in sources[j].table :: k
      {
        keys := keys + sources[i].table.Keys;
      }
      var todo := keys;
      while todo != {}
        invariant todo <= keys && table.Keys == keys - todo
        invariant forall k :: k in table ==> exists i ::
                0 <= i < |sources| && k in sources[i].table && table[k] == sources[i].table[k]
        decreases todo
      {
        var k :| k in todo;
        var i :| 0 <= i < |sources| && k in sources[i].table;
        table := table[k := sources[i].table[k]];
        todo := todo - {k};
      }
      DistinctIsUnion(sources, table);
    }

    // merge_all: one statement over all sources when the table is empty, else one
    // source after the other. It throws at the first unreadable source.
    method MergeAll(sources: seq<Source>) returns (ok: bool)
      requires Valid()
      modifies this`table, this`attached
      ensures Valid()
      ensures ok <==> AllReadable(sources)
      ensures ok ==> IsUnion(old(table), Tables(sources), table)
      ensures !ok ==> exists n :: 0 <= n <= |sources| && IsUnion(old(table), Tables(sources[..n]), table)
      ensures !ok && (old(table) == map[] || |sources| == 1) ==> table == old(table)
    {
      hide IsUnion, Tables;
      NothingMerged(table);
      if sources == [] {
        return true;
      }
      if |sources| == 1 || table != map[] {
        for i := 0 to |sources|
          invariant Valid() && AllReadable(sources[..i]) && IsUnion(old(table), Tables(sources[..i]), table)
          invariant i == 0 ==> table == old(table)
        {
          TablesStep(sources, i);
          ghost var before := table;
          ok := MergeFrom(sources[i]);
          if !ok {
            assert IsUnion(old(table), Tables(sources[..i]), table);
            return;
          }
          UnionStep(old(table), Tables(sources[..i]), before, sources[i].table);
        }
        assert sources[..|sources|] == sources;
        return true;
      }
      ok := AttachAll(sources);
      if ok && (forall i :: 0 <= i < |sources| ==> sources[i].Readable?) {
        InsertDistinct(sources);
      } else {
        ok := false;
        assert sources[..0] == [] && IsUnion(old(table), Tables(sources[..0]), table);
      }
      attached := {};   // every alias attached so far is detached, also while unwinding
    }

    // Attach the sources under distinct aliases until one fails.
    method AttachAll(sources: seq<Source>) returns (ok: bool)
      requires Valid()
      modifies this`attached
      ensures ok <==> forall i :: 0 <= i < |sources| ==> !sources[i].Missing?
    {
      for i := 0 to |sources|
        invariant attached == set j: nat | j < i :: Alias(j)
        invariant forall j :: 0 <= j < i ==> !sources[j].Missing?
      {
        AliasesDiffer(i);
        ok := Attach(Alias(i), sources[i]);
        if !ok {
          return;
        }
      }
      return true;
    }
  }

  function Alias(i: nat): string {
    "msrc" + Digits(i)
  }

  lemma AliasesDiffer(i: nat)
    ensures forall j: nat :: j < i ==> Alias(j) != Alias(i)
  {
    forall j: nat | j < i ensures Alias(j) != Alias(i) {
      if Alias(j) == Alias(i) {
        assert Alias(j)[4..] == Digits(j) && Alias(i)[4..] == Digits(i);
        DigitsInjective(j, i);
      }
    }
  }

  lemma NothingMerged(t: Table)
    ensures IsUnion(t, [], t) && Tables([]) == []
  {
  }

  lemma TablesStep(sources: seq<Source>, i: nat)
    requires i < |sources|
    ensures Tables(sources[..i + 1]) == if sources[i].Readable? then Tables(sources[..i]) + [sources[i].table]
            else Tables(sources[..i])
  {
    assert sources[..i + 1][..i] == sources[..i];
  }

  lemma DistinctIsUnion(sources: seq<Source>, t: Table)
    requires AllReadable(sources)
    requires forall i, k :: 0 <= i < |sources| && k in sources[i].table ==> k in t
    requires forall k :: k in t ==> exists i ::
            0 <= i < |sources| && k in sources[i].table && t[k] == sources[i].table[k]
    ensures IsUnion(map[], Tables(sources), t)
  {
    var tables := Tables(sources);
    forall j, k | 0 <= j < |tables| && k in tables[j] ensures k in t {
      TablesMember(sources, tables[j]);
      var i :| 0 <= i < |sources| && sources[i] == Readable(tables[j]);
      assert k in sources[i].table;
    }
    forall k | k in t ensures exists j :: 0 <= j < |tables| && k in tables[j] && t[k] == tables[j][k] {
      var i :| 0 <= i < |sources| && k in sources[i].table && t[k] == sources[i].table[k];
      TablesMember(sources, sources[i].table);
      assert Readable(sources[i].table) == sources[i] && sources[i] in sources;
      var j :| 0 <= j < |tables| && tables[j] == sources[i].table;
    }
  }
}
