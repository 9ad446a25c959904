// The Parquet store's lifecycle, and publishing through a private temp and a
// rename while other writers race for the same destination.
module Publish {
  import opened Protocol
  import opened Decimal
  import opened Extractor
  import opened Store

  // What a file holds: a whole sorted table, or whatever a failed copy left.
  datatype Content = Torn | Parquet(rows: seq<KeyedRow>)

  type Files = map<string, Content>

  /******* Temp names *******/

  const PREFIX := "/.mas-publish."

  function TempName(dir: string, pid: nat, token: nat): string {
    dir + PREFIX + Digits(pid) + "." + Digits(token) + ".tmp"
  }

  function DigitRun(s: string): nat {
    if s != "" && IsDigit(s[0]) then 1 + DigitRun(s[1..]) else 0
  }

  lemma {:induction false} RunOf(a: string, b: string)
    requires AllDigits(a)
    ensures DigitRun(a + "." + b) == |a|
  {
    var s := a + "." + b;
    if a != "" {
      assert s[1..] == a[1..] + "." + b;
      RunOf(a[1..], b);
    }
  }

  lemma DotApart(a: string, b: string, c: string, d: string)
    requires AllDigits(a) && AllDigits(c) && a + "." + b == c + "." + d
    ensures a == c && b == d
  {
    RunOf(a, b);
    RunOf(c, d);
    var s, k := a + "." + b, |a|;
    assert |c| == k && s == c + "." + d;
    assert a == s[..k] == c;
    assert b == s[k + 1..] == d;
  }

  // Distinct processes, and distinct publishes within one, never share a temp.
  lemma TempNamesDiffer(dir: string, pid: nat, token: nat, pid': nat, token': nat)
    requires TempName(dir, pid, token) == TempName(dir, pid', token')
    ensures pid == pid' && token == token'
  {
    var head := dir + PREFIX;
    var a, b, c, d := Digits(pid), Digits(token) + ".tmp", Digits(pid'), Digits(token') + ".tmp";
    Behind(head, a, b, TempName(dir, pid, token));
    Behind(head, c, d, TempName(dir, pid', token'));
    DotApart(a, b, c, d);
    assert b == Digits(token) + "." + "tmp" && d == Digits(token') + "." + "tmp";
    DotApart(Digits(token), "tmp", Digits(token'), "tmp");
    DigitsInjective(pid, pid');
    DigitsInjective(token, token');
  }

  lemma Behind(head: string, a: string, b: string, s: string)
    requires s == head + a + "." + b
    ensures |head| <= |s| && s[|head|..] == a + "." + b
  {
  }

  /******* ORDER BY head_id, ts *******/

  predicate Before(a: KeyedRow, b: KeyedRow) {
    a.key.head < b.key.head || (a.key.head == b.key.head && a.key.ts <= b.key.ts)
  }

  ghost predicate Ordered(rows: seq<KeyedRow>) {
    forall i, j :: 0 <= i < j < |rows| ==>
      rows[i].key.head < rows[j].key.head || (rows[i].key.head == rows[j].key.head && rows[i].key.ts <= rows[j].key.ts)
  }

  function Insert(r: KeyedRow, rows: seq<KeyedRow>): seq<KeyedRow> {
    if rows == [] || Before(r, rows[0]) then [r] + rows else [rows[0]] + Insert(r, rows[1..])
  }

  function Sort(rows: seq<KeyedRow>): seq<KeyedRow> {
    if rows == [] then [] else Insert(rows[0], Sort(rows[1..]))
  }

  lemma {:induction false} InsertLaw(r: KeyedRow, rows: seq<KeyedRow>)
    requires Ordered(rows)
    ensures Ordered(Insert(r, rows)) && multiset(Insert(r, rows)) == multiset(rows) + multiset{r}
  {
    if rows != [] && !Before(r, rows[0]) {
      InsertLaw(r, rows[1..]);
      FirstStays(r, rows[0], rows[1..], Insert(r, rows[1..]));
    }
    assert rows == [] || rows == [rows[0]] + rows[1..];
  }

  // Putting the least row back in front of the rest, r now among it.
  lemma FirstStays(r: KeyedRow, first: KeyedRow, rows: seq<KeyedRow>, rest: seq<KeyedRow>)
    requires Ordered([first] + rows) && Ordered(rest) && !Before(r, first)
    requires multiset(rest) == multiset(rows) + multiset{r}
    ensures Ordered([first] + rest) && multiset([first] + rest) == multiset([first] + rows) + multiset{r}
  {
    forall j | 0 <= j < |rest| ensures Before(first, rest[j]) {
      assert rest[j] in multiset(rest);
      if rest[j] != r {
        assert rest[j] in multiset(rows);
        var k :| 0 <= k < |rows| && rows[k] == rest[j];
        assert ([first] + rows)[0] == first && ([first] + rows)[k + 1] == rest[j];
      }
    }
  }

  // The sorted content holds exactly the rows accepted.
  lemma {:induction false} SortLaw(rows: seq<KeyedRow>)
    ensures Ordered(Sort(rows)) && multiset(Sort(rows)) == multiset(rows)
  {
    if rows != [] {
      SortLaw(rows[1..]);
      InsertLaw(rows[0], Sort(rows[1..]));
      assert rows == [rows[0]] + rows[1..];
    }
  }

  /******* One store, call by call *******/

  class Disk {
    const dir: string
    const pid: nat
    var files: Files
    var nextToken: nat

    constructor (dir: string, pid: nat, files: Files)
      ensures this.dir == dir && this.pid == pid && this.files == files && nextToken == 0
    {
      this.dir, this.pid, this.files, this.nextToken := dir, pid, files, 0;
    }

    method TempSibling() returns (name: string)
      modifies this`nextToken
      ensures name == TempName(dir, pid, old(nextToken)) && nextToken == old(nextToken) + 1
    {
      name := TempName(dir, pid, nextToken);
      nextToken := nextToken + 1;
    }
  }

  // How COPY ends: the whole file, an exception with or without something left
  // behind, or no exception and no regular file.
  datatype Copy = Whole | ThrewWith(left: Option<Content>) | WroteNothing

  class ParquetEventStore {
    const path: string
    const machine: string
    const cast: Cast
    var appender: seq<KeyedRow>   // rows not yet flushed into the table
    var buf: seq<KeyedRow>
    var n: nat
    var closed: bool
    var failed: bool

    ghost predicate Valid()
      reads this
    {
      !closed && !failed ==> n == |buf| + |appender|
    }

    ghost function Accepted(): seq<KeyedRow>
      reads this
    {
      buf + appender
    }

    constructor (path: string, machine: string, cast: Cast)
      ensures Valid() && !closed && !failed && Accepted() == [] && this.path == path && this.machine == machine
              && this.cast == cast
    {
      this.path, this.machine, this.cast := path, machine, cast;
      this.appender, this.buf, this.n, this.closed, this.failed := [], [], 0, false, false;
    }

    // A refused row latches `failed`: the store will never publish.
    method Write(events: seq<Event>, stuck: bool) returns (ok: bool)
      requires Valid()
      modifies this`appender, this`n, this`failed
      ensures Valid()
      ensures closed ==> !ok && failed == old(failed) && n == old(n) && Accepted() == old(Accepted())
      ensures !closed && events == [] ==> ok
      ensures !closed && events != [] ==> (ok <==> !stuck && Castable(cast, events))
      ensures ok ==>
              && Accepted() == old(Accepted()) + KeyedRowsIf(cast, machine, events)
              && n == old(n) + |events| && failed == old(failed)
      ensures !ok && !closed ==> failed
    {
      if closed {
        return false;
      }
      if events == [] {
        return true;
      }
      if stuck {
        failed := true;
        return false;
      }
      ghost var before := appender;
      for i := 0 to |events|
        invariant Castable(cast, events[..i]) && n == old(n) && failed == old(failed)
        invariant appender == before + KeyedRows(cast, machine, events[..i])
      {
        var at := cast(events[i].ts);
        if at.None? {
          failed := true;
          return false;
        }
        CastableMore(cast, events, i);
        KeyedStep(cast, machine, events, i);
        appender := appender + [Keyed(cast, machine, events[i])];
      }
      assert events[..|events|] == events;
      n := n + |events|;
      return true;
    }

    // One-shot: publishes the sorted rows whole, or changes nothing on disk,
    // whether the last flush, the copy or the rename throws.
    method Close(disk: Disk, flushFails: bool, copy: Copy, renameFails: bool) returns (ok: bool)
      requires Valid() && path != TempName(disk.dir, disk.pid, disk.nextToken)
      requires TempName(disk.dir, disk.pid, disk.nextToken) !in disk.files
      modifies this`closed, this`appender, this`buf, disk
      ensures Valid() && closed && failed == old(failed)
      ensures old(closed) ==> ok && disk.files == old(disk.files)
      ensures !old(closed) ==> (ok <==> !failed && !(flushFails && old(appender) != []) && copy.Whole? && !renameFails)
      ensures !old(closed) && ok ==> disk.files == old(disk.files)[path := Parquet(Sort(old(Accepted())))]
      ensures !ok ==> disk.files == old(disk.files)
      ensures disk.nextToken == old(disk.nextToken)
                + if old(closed) || failed || (flushFails && old(appender) != []) then 0 else 1
    {
      if closed {
        return true;
      }
      closed := true;
      if failed {
        appender := [];
        return false;
      }
      if appender != [] && flushFails {
        return false;
      }
      buf, appender := buf + appender, [];
      assert n == |buf|;   // so the self-check below never refuses
      if |buf| != n {
        return false;
      }
      var tmp := disk.TempSibling();
      match copy {
        case Whole =>
          disk.files := disk.files[tmp := Parquet(Sort(buf))];
        case ThrewWith(left) =>
          if left.Some? {
            disk.files := disk.files[tmp := left.value];
          }
        case WroteNothing =>
      }
      ok := copy.Whole? && tmp in disk.files && !renameFails;
      if ok {
        disk.files := (disk.files - {tmp})[path := disk.files[tmp]];
      } else {
        disk.files := disk.files - {tmp};
      }
    }

    method Abandon()
      modifies this`closed, this`appender, this`buf
      ensures Valid() && closed && Accepted() == []
    {
      closed := true;
      buf, appender := buf + appender, [];
      buf := [];
    }
  }

  lemma CastableMore(cast: Cast, events: seq<Event>, i: nat)
    requires i < |events| && Castable(cast, events[..i]) && cast(events[i].ts).Some?
    ensures Castable(cast, events[..i + 1])
  {
    var more := events[..i + 1];
    forall j | 0 <= j < |more| ensures cast(more[j].ts).Some? {
      if j < i { assert events[..i][j] == more[j]; }
    }
  }

  function KeyedRowsIf(cast: Cast, machine: string, events: seq<Event>): seq<KeyedRow> {
    if Castable(cast, events) then KeyedRows(cast, machine, events) else []
  }

  /******* Any number of stores on one path *******/

  datatype Phase =
    Open | Begun(tmp: string) | Copied(tmp: string) | Cleanup(tmp: string) | Gone(tmp: string) | Over(published: bool)

  datatype Writer = Writer(pid: nat, rows: seq<KeyedRow>, closed: bool, failed: bool, phase: Phase)

  datatype Race = Race(files: Files, writers: seq<Writer>, tokens: map<nat, nat>)

  datatype Act =
    | Accept(rows: seq<KeyedRow>)          // a write the store took
    | Break                                // a write that threw
    | Abandon                              // abandon(), a destructor before close, or a flush in close() that threw
    | Refuse                               // close() of a failed store
    | Begin                                // close(): latch, pick the temp's name
    | CopyWhole
    | CopyFails(left: Option<Content>)     // COPY threw, or left no regular file
    | Rename
    | RenameFails
    | Remove                               // the catch block clears the temp
    | Vanish                               // the process dies wherever it is

  function Token(tokens: map<nat, nat>, pid: nat): nat {
    if pid in tokens then tokens[pid] else 0
  }

  ghost predicate Step(dir: string, dest: string, s: Race, i: nat, a: Act, t: Race)
    requires i < |s.writers|
  {
    var w := s.writers[i];
    match a
    case Accept(rows) => w.phase.Open? && !w.closed && t == s.(writers := s.writers[i := w.(rows := w.rows + rows)])
    case Break => w.phase.Open? && !w.closed && t == s.(writers := s.writers[i := w.(failed := true)])
    case Abandon => w.phase.Open? && t == s.(writers := s.writers[i := w.(closed := true, phase := Over(false))])
    case Refuse =>
      && w.phase.Open? && !w.closed && w.failed
      && t == s.(writers := s.writers[i := w.(closed := true, phase := Over(false))])
    case Begin =>
      && w.phase.Open? && !w.closed && !w.failed
      && t == s.(writers := s.writers[i := w.(closed := true,
                                              phase := Begun(TempName(dir, w.pid, Token(s.tokens, w.pid))))],
                 tokens := s.tokens[w.pid := Token(s.tokens, w.pid) + 1])
    case CopyWhole =>
      w.phase.Begun? && t == s.(files := s.files[w.phase.tmp := Parquet(Sort(w.rows))],
                                writers := s.writers[i := w.(phase := Copied(w.phase.tmp))])
    case CopyFails(left) =>
      w.phase.Begun? && t == s.(files := if left.Some? then s.files[w.phase.tmp := left.value] else s.files,
                                writers := s.writers[i := w.(phase := Cleanup(w.phase.tmp))])
    case Rename =>
      && w.phase.Copied? && w.phase.tmp in s.files
      && t == s.(files := (s.files - {w.phase.tmp})[dest := s.files[w.phase.tmp]],
                 writers := s.writers[i := w.(phase := Over(true))])
    case RenameFails => w.phase.Copied? && t == s.(writers := s.writers[i := w.(phase := Cleanup(w.phase.tmp))])
    case Remove =>
      w.phase.Cleanup? && t == s.(files := s.files - {w.phase.tmp}, writers := s.writers[i := w.(phase := Over(false))])
    case Vanish =>
      var phase := if HasTemp(w.phase) then Gone(w.phase.tmp) else Over(w.phase == Over(true));
      t == s.(writers := s.writers[i := w.(closed := true, phase := phase)])
  }

  predicate HasTemp(phase: Phase) {
    phase.Begun? || phase.Copied? || phase.Cleanup? || phase.Gone?
  }

  ghost predicate TempOk(dir: string, s: Race, i: nat)
    requires i < |s.writers|
  {
    var w := s.writers[i];
    HasTemp(w.phase) ==> exists token: nat ::
        token < Token(s.tokens, w.pid) && w.phase.tmp == TempName(dir, w.pid, token)
  }

  ghost predicate PhaseOk(s: Race, i: nat)
    requires i < |s.writers|
  {
    var w := s.writers[i];
    && (w.phase.Begun? || w.phase.Copied? || w.phase == Over(true) ==> w.closed && !w.failed)
    && (w.phase.Copied? ==> w.phase.tmp in s.files && s.files[w.phase.tmp] == Parquet(Sort(w.rows)))
  }

  ghost predicate Apart(s: Race, i: nat, j: nat)
    requires i < |s.writers| && j < |s.writers|
  {
    HasTemp(s.writers[i].phase) && HasTemp(s.writers[j].phase) ==> s.writers[i].phase.tmp != s.writers[j].phase.tmp
  }

  // The destination is untouched, or holds everything one store accepted, that
  // store having been closed with no failed write and no abandon.
  ghost predicate Published(dest: string, initial: Files, s: Race) {
    || ((dest in s.files <==> dest in initial) && (dest in initial ==> s.files[dest] == initial[dest]))
    || exists i :: 0 <= i < |s.writers| && Landed(dest, s, i)
  }

  ghost predicate Landed(dest: string, s: Race, i: nat)
    requires i < |s.writers|
  {
    var w := s.writers[i];
    w.phase == Over(true) && w.closed && !w.failed && dest in s.files && s.files[dest] == Parquet(Sort(w.rows))
  }

  // Any other file is an original one, or the temp of a publish still under way
  // (or of a process that died inside one).
  ghost predicate NoLitter(dest: string, initial: Files, s: Race) {
    && (forall f :: f in initial && f != dest ==> f in s.files && s.files[f] == initial[f])
    && (forall f :: f in s.files && f !in initial && f != dest ==> TempOf(s, f))
  }

  ghost predicate TempOf(s: Race, f: string) {
    exists i :: 0 <= i < |s.writers| && HasTemp(s.writers[i].phase) && s.writers[i].phase.tmp == f
  }

  ghost predicate Ok(dir: string, dest: string, initial: Files, s: Race) {
    && (forall i :: 0 <= i < |s.writers| ==> TempOk(dir, s, i))
    && (forall i :: 0 <= i < |s.writers| ==> PhaseOk(s, i))
    && (forall i, j :: 0 <= i < |s.writers| && 0 <= j < |s.writers| && i != j ==> Apart(s, i, j))
    && Published(dest, initial, s)
    && NoLitter(dest, initial, s)
  }

  // Temps match no original file and not the destination.
  ghost predicate Private(dir: string, dest: string, initial: Files) {
    forall pid, token :: TempName(dir, pid, token) != dest && TempName(dir, pid, token) !in initial
  }

  /******* Every step keeps it *******/

  // A step concerns its own writer only.
  lemma OthersStay(dir: string, dest: string, s: Race, i: nat, a: Act, t: Race)
    requires i < |s.writers| && Step(dir, dest, s, i, a, t)
    ensures |t.writers| == |s.writers| && forall j :: 0 <= j < |s.writers| && j != i ==> t.writers[j] == s.writers[j]
    ensures t.writers[i].pid == s.writers[i].pid
    ensures forall pid :: Token(s.tokens, pid) <= Token(t.tokens, pid)
    ensures !a.Begin? && HasTemp(t.writers[i].phase) ==>
            HasTemp(s.writers[i].phase) && t.writers[i].phase.tmp == s.writers[i].phase.tmp
    ensures s.writers[i].closed ==>
            t.writers[i].rows == s.writers[i].rows && t.writers[i].failed == s.writers[i].failed && t.writers[i].closed
    ensures s.writers[i].phase == Over(true) ==> t.writers[i].phase == Over(true) || !s.writers[i].closed
  {
    hide TempName, Sort;
  }

  lemma TempsKeep(dir: string, dest: string, s: Race, i: nat, a: Act, t: Race, j: nat)
    requires i < |s.writers| && Step(dir, dest, s, i, a, t) && j < |s.writers|
    requires forall k :: 0 <= k < |s.writers| ==> TempOk(dir, s, k)
    ensures |t.writers| == |s.writers| && TempOk(dir, t, j)
  {
    OthersStay(dir, dest, s, i, a, t);
    assert TempOk(dir, s, j);
    hide TempName, Sort;
    if j == i && a.Begin? {
      var w := s.writers[i];
      assert t.writers[i].phase.tmp == TempName(dir, w.pid, Token(s.tokens, w.pid));
      assert Token(t.tokens, w.pid) == Token(s.tokens, w.pid) + 1;
    } else {
      hide Step;
      if HasTemp(t.writers[j].phase) {
        var token: nat :| token < Token(s.tokens, s.writers[j].pid)
            && s.writers[j].phase.tmp == TempName(dir, s.writers[j].pid, token);
        assert token < Token(t.tokens, t.writers[j].pid);
      }
    }
  }

  // A fresh token's name is nobody else's.
  lemma FreshApart(dir: string, s: Race, i: nat, j: nat, tmp: string)
    requires i < |s.writers| && j < |s.writers| && TempOk(dir, s, j) && HasTemp(s.writers[j].phase)
    requires tmp == TempName(dir, s.writers[i].pid, Token(s.tokens, s.writers[i].pid))
    ensures s.writers[j].phase.tmp != tmp
  {
    hide TempName;
    var token: nat :| token < Token(s.tokens, s.writers[j].pid)
        && s.writers[j].phase.tmp == TempName(dir, s.writers[j].pid, token);
    if s.writers[j].phase.tmp == tmp {
      TempNamesDiffer(dir, s.writers[j].pid, token, s.writers[i].pid, Token(s.tokens, s.writers[i].pid));
    }
  }

  lemma ApartKeeps(dir: string, dest: string, s: Race, i: nat, a: Act, t: Race, j: nat, k: nat)
    requires i < |s.writers| && Step(dir, dest, s, i, a, t) && j < |s.writers| && k < |s.writers| && j != k
    requires forall l :: 0 <= l < |s.writers| ==> TempOk(dir, s, l)
    requires Apart(s, j, k)
    ensures |t.writers| == |s.writers| && Apart(t, j, k)
  {
    OthersStay(dir, dest, s, i, a, t);
    hide TempName, Sort, TempOk;
    if a.Begin? {
      var tmp := TempName(dir, s.writers[i].pid, Token(s.tokens, s.writers[i].pid));
      if j == i && HasTemp(s.writers[k].phase) {
        FreshApart(dir, s, i, k, tmp);
      } else if k == i && HasTemp(s.writers[j].phase) {
        FreshApart(dir, s, i, j, tmp);
      }
    } else {
      hide Step;
    }
  }

  // Only a writer's own temp, and at a rename the destination, change on disk.
  lemma FilesChange(dir: string, dest: string, s: Race, i: nat, a: Act, t: Race, f: string)
    requires i < |s.writers| && Step(dir, dest, s, i, a, t)
    requires HasTemp(s.writers[i].phase) ==> f != s.writers[i].phase.tmp
    requires a.Rename? ==> f != dest
    ensures f in t.files <==> f in s.files
    ensures f in s.files ==> t.files[f] == s.files[f]
  {
    hide TempName, Sort;
  }

  lemma NotTemp(dir: string, dest: string, initial: Files, s: Race, j: nat, f: string)
    requires Private(dir, dest, initial) && j < |s.writers| && TempOk(dir, s, j) && (f == dest || f in initial)
    ensures HasTemp(s.writers[j].phase) ==> s.writers[j].phase.tmp != f
  {
    hide TempName;
  }

  lemma PhaseKeeps(dir: string, dest: string, initial: Files, s: Race, i: nat, a: Act, t: Race, j: nat)
    requires Private(dir, dest, initial) && Ok(dir, dest, initial, s)
    requires i < |s.writers| && Step(dir, dest, s, i, a, t) && j < |s.writers|
    ensures |t.writers| == |s.writers| && PhaseOk(t, j)
  {
    OthersStay(dir, dest, s, i, a, t);
    assert PhaseOk(s, j) && PhaseOk(s, i) && (i != j ==> Apart(s, i, j)) && TempOk(dir, s, j);
    hide TempName, Sort, Published, NoLitter, Private;
    if j != i && s.writers[j].phase.Copied? {
      NotTemp(dir, dest, initial, s, j, dest);
      FilesChange(dir, dest, s, i, a, t, s.writers[j].phase.tmp);
    }
  }

  lemma PublishedKeeps(dir: string, dest: string, initial: Files, s: Race, i: nat, a: Act, t: Race)
    requires Private(dir, dest, initial) && Ok(dir, dest, initial, s)
    requires i < |s.writers| && Step(dir, dest, s, i, a, t)
    ensures Published(dest, initial, t)
  {
    OthersStay(dir, dest, s, i, a, t);
    assert PhaseOk(s, i) && TempOk(dir, s, i);
    NotTemp(dir, dest, initial, s, i, dest);
    hide TempName, Sort, NoLitter, Private, TempOk, Apart;
    if a.Rename? {
      assert Landed(dest, t, i);
    } else {
      FilesChange(dir, dest, s, i, a, t, dest);
      if j :| 0 <= j < |s.writers| && Landed(dest, s, j) {
        hide Step;
        assert Landed(dest, t, j);
      }
    }
  }

  lemma TempStays(dir: string, dest: string, s: Race, i: nat, a: Act, t: Race, f: string)
    requires i < |s.writers| && Step(dir, dest, s, i, a, t) && TempOf(s, f) && f in t.files && f != dest
    requires forall j :: 0 <= j < |s.writers| && j != i ==> Apart(s, i, j)
    ensures TempOf(t, f)
  {
    OthersStay(dir, dest, s, i, a, t);
    hide TempName, Sort;
    var j :| 0 <= j < |s.writers| && HasTemp(s.writers[j].phase) && s.writers[j].phase.tmp == f;
    assert HasTemp(t.writers[j].phase) && t.writers[j].phase.tmp == f;
  }

  lemma TempAppears(dir: string, dest: string, s: Race, i: nat, a: Act, t: Race, f: string)
    requires i < |s.writers| && Step(dir, dest, s, i, a, t) && f in t.files && f !in s.files && f != dest
    ensures TempOf(t, f)
  {
    OthersStay(dir, dest, s, i, a, t);
    hide TempName, Sort;
    assert HasTemp(t.writers[i].phase) && t.writers[i].phase.tmp == f;
  }

  lemma LitterKeeps(dir: string, dest: string, initial: Files, s: Race, i: nat, a: Act, t: Race)
    requires Private(dir, dest, initial) && Ok(dir, dest, initial, s)
    requires i < |s.writers| && Step(dir, dest, s, i, a, t)
    ensures NoLitter(dest, initial, t)
  {
    assert forall j :: 0 <= j < |s.writers| && j != i ==> Apart(s, i, j);
    assert TempOk(dir, s, i);
    hide TempName, Sort, Published, Private, TempOk, Apart, Step, PhaseOk, TempOf;
    forall f | f in initial && f != dest ensures f in t.files && t.files[f] == initial[f] {
      NotTemp(dir, dest, initial, s, i, f);
      FilesChange(dir, dest, s, i, a, t, f);
    }
    forall f | f in t.files && f !in initial && f != dest ensures TempOf(t, f) {
      if f in s.files {
        TempStays(dir, dest, s, i, a, t, f);
      } else {
        TempAppears(dir, dest, s, i, a, t, f);
      }
    }
  }

  lemma StepKeeps(dir: string, dest: string, initial: Files, s: Race, i: nat, a: Act, t: Race)
    requires Private(dir, dest, initial) && Ok(dir, dest, initial, s)
    requires i < |s.writers| && Step(dir, dest, s, i, a, t)
    ensures Ok(dir, dest, initial, t) && |t.writers| == |s.writers|
  {
    OthersStay(dir, dest, s, i, a, t);
    PublishedKeeps(dir, dest, initial, s, i, a, t);
    LitterKeeps(dir, dest, initial, s, i, a, t);
    hide Step, Published, NoLitter, Private, TempOk, Apart, PhaseOk;
    forall j | 0 <= j < |t.writers| ensures TempOk(dir, t, j) { TempsKeep(dir, dest, s, i, a, t, j); }
    forall j | 0 <= j < |t.writers| ensures PhaseOk(t, j) { PhaseKeeps(dir, dest, initial, s, i, a, t, j); }
    forall j, k | 0 <= j < |t.writers| && 0 <= k < |t.writers| && j != k ensures Apart(t, j, k) {
      ApartKeeps(dir, dest, s, i, a, t, j, k);
    }
  }

  /******* Every run *******/

  datatype Move = Move(writer: nat, act: Act)

  ghost predicate Starts(initial: Files, s: Race) {
    s.files == initial && forall i :: 0 <= i < |s.writers| ==>
        s.writers[i].phase == Open && !s.writers[i].closed && !s.writers[i].failed
  }

  ghost predicate IsRun(dir: string, dest: string, initial: Files, ss: seq<Race>, moves: seq<Move>) {
    && |ss| == |moves| + 1 && Starts(initial, ss[0])
    && forall k :: 0 <= k < |moves| ==>
        moves[k].writer < |ss[k].writers| && Step(dir, dest, ss[k], moves[k].writer, moves[k].act, ss[k + 1])
  }

  // Whatever the interleaving, whoever fails or dies, however calls are ordered.
  lemma {:induction false} DestinationIsWhole(dir: string, dest: string, initial: Files, ss: seq<Race>,
                                              moves: seq<Move>)
    requires Private(dir, dest, initial) && IsRun(dir, dest, initial, ss, moves)
    ensures var s := ss[|moves|];
            Ok(dir, dest, initial, s) && Published(dest, initial, s) && NoLitter(dest, initial, s)
    decreases |moves|
  {
    hide Private;
    if moves == [] {
      StartsOk(dir, dest, initial, ss[0]);
    } else {
      var n := |moves| - 1;
      var fewer, less := ss[..n + 1], moves[..n];
      forall k | 0 <= k < n ensures less[k].writer < |fewer[k].writers|
          && Step(dir, dest, fewer[k], less[k].writer, less[k].act, fewer[k + 1])
      {
        assert fewer[k] == ss[k] && fewer[k + 1] == ss[k + 1] && less[k] == moves[k];
      }
      hide Step, Starts;
      DestinationIsWhole(dir, dest, initial, fewer, less);
      StepKeeps(dir, dest, initial, ss[n], moves[n].writer, moves[n].act, ss[n + 1]);
    }
  }

  lemma StartsOk(dir: string, dest: string, initial: Files, s: Race)
    requires Starts(initial, s)
    ensures Ok(dir, dest, initial, s)
  {
  }

  // Left alone, a store's close() is three steps of the race, and they do to the
  // disk what the class's Close does.
  lemma CloseIsThreeSteps(dir: string, dest: string, s: Race, i: nat) returns (a: Race, b: Race, t: Race)
    requires i < |s.writers| && s.writers[i].phase.Open? && !s.writers[i].closed && !s.writers[i].failed
    requires var tmp := TempName(dir, s.writers[i].pid, Token(s.tokens, s.writers[i].pid));
             tmp != dest && tmp !in s.files
    ensures Step(dir, dest, s, i, Begin, a) && |a.writers| == |s.writers| && Step(dir, dest, a, i, CopyWhole, b)
    ensures |b.writers| == |s.writers| && Step(dir, dest, b, i, Rename, t)
    ensures t.files == s.files[dest := Parquet(Sort(s.writers[i].rows))]
  {
    var w := s.writers[i];
    var tmp := TempName(dir, w.pid, Token(s.tokens, w.pid));
    hide TempName, Sort;
    a := s.(writers := s.writers[i := w.(closed := true, phase := Begun(tmp))],
            tokens := s.tokens[w.pid := Token(s.tokens, w.pid) + 1]);
    b := a.(files := a.files[tmp := Parquet(Sort(w.rows))],
            writers := a.writers[i := a.writers[i].(phase := Copied(tmp))]);
    t := b.(files := (b.files - {tmp})[dest := b.files[tmp]],
            writers := b.writers[i := b.writers[i].(phase := Over(true))]);
  }

  // Once every writer has finished and none has died, nothing but the
  // destination can be new.
  lemma NothingLeft(dir: string, dest: string, initial: Files, ss: seq<Race>, moves: seq<Move>)
    requires Private(dir, dest, initial) && IsRun(dir, dest, initial, ss, moves)
    requires forall i :: 0 <= i < |ss[|moves|].writers| ==>
            ss[|moves|].writers[i].phase.Over? || ss[|moves|].writers[i].phase.Open?
    ensures ss[|moves|].files.Keys <= initial.Keys + {dest}
  {
    DestinationIsWhole(dir, dest, initial, ss, moves);
    hide IsRun, Private, Ok, Published;
    var s := ss[|moves|];
    assert forall f :: !TempOf(s, f);
  }
}
