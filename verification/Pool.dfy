// The monolith: files cleaned one after another into one store, or pulled off an
// atomic counter by a pool of threads with a store each, merged after the join.
module Pool {
  import opened Protocol
  import opened Extractor
  import opened Store
  import opened Pipeline

  // The command line's files: None for one that cannot be opened.
  datatype Job = Job(machine: string, cast: Cast, heads: nat, files: seq<Option<seq<RawRow>>>)

  ghost predicate Sound(job: Job) {
    forall i :: 0 <= i < |job.files| && job.files[i].Some? ==> Shaped(job.files[i].value, job.heads)
  }

  function FileBatches(job: Job, i: nat): seq<seq<Event>>
    requires Sound(job) && i < |job.files|
  {
    if job.files[i].None? then [] else Batches(job.files[i].value, job.heads)
  }

  // File i can be cleaned from end to end.
  ghost predicate Clean(job: Job, i: nat)
    requires Sound(job) && i < |job.files|
  {
    job.files[i].Some? && AllCastable(job.cast, FileBatches(job, i))
  }

  ghost predicate AllClean(job: Job, n: nat)
    requires Sound(job) && n <= |job.files|
  {
    forall i :: 0 <= i < n ==> Clean(job, i)
  }

  // The rows of a clean file; one that is not contributes none to a success.
  ghost function FileRows(job: Job, i: nat): seq<KeyedRow>
    requires Sound(job) && i < |job.files|
  {
    if Clean(job, i) then
      CastableConcat(job.cast, FileBatches(job, i));
      KeyedRows(job.cast, job.machine, Concat(FileBatches(job, i)))
    else []
  }

  function FileEvents(job: Job, i: nat): nat
    requires Sound(job) && i < |job.files|
  {
    |Concat(FileBatches(job, i))|
  }

  function EventTotal(job: Job, n: nat): nat
    requires Sound(job) && n <= |job.files|
  {
    if n == 0 then 0 else EventTotal(job, n - 1) + FileEvents(job, n - 1)
  }

  ghost function AllRows(job: Job, n: nat): seq<KeyedRow>
    requires Sound(job) && n <= |job.files|
  {
    if n == 0 then [] else AllRows(job, n - 1) + FileRows(job, n - 1)
  }

  lemma WrittenFile(job: Job, i: nat, t: Table)
    requires Sound(job) && i < |job.files| && Clean(job, i)
    ensures TableAfter(job.cast, job.machine, t, FileBatches(job, i)) == InsertAll(t, FileRows(job, i))
  {
    hide TableAfter, Concat, Batches;
    BatchingInvisible(job.cast, job.machine, t, FileBatches(job, i));
  }

  // A file counts its stream's events, and a clean one has a row for each.
  lemma FileIsStream(job: Job, i: nat)
    requires Sound(job) && i < |job.files| && job.files[i].Some?
    ensures var events := Transitions(Cpp, job.files[i].value, job.heads);
            && FileEvents(job, i) == |events|
            && (Clean(job, i) ==>
                  Castable(job.cast, events) && FileRows(job, i) == KeyedRows(job.cast, job.machine, events))
  {
    BatchesLaw(job.files[i].value, job.heads);
    if Clean(job, i) {
      CastableConcat(job.cast, FileBatches(job, i));
    }
    hide Concat, Transitions, Batches, Castable, AllCastable;
  }

  // The event total is the number of rows that went to the stores.
  lemma {:induction false} TotalIsRows(job: Job, n: nat)
    requires Sound(job) && n <= |job.files| && AllClean(job, n)
    ensures EventTotal(job, n) == |AllRows(job, n)|
  {
    hide FileEvents, FileRows, Transitions, FileBatches, Castable;
    if n > 0 {
      assert Clean(job, n - 1);
      TotalIsRows(job, n - 1);
      FileIsStream(job, n - 1);
    }
  }

  /******* One thread *******/

  // clean_into: one file's batches, in order, until one is not taken.
  method CleanInto(job: Job, i: nat, store: DuckDbStore, refused: (nat, nat) -> bool) returns (ok: bool)
    requires Sound(job) && i < |job.files| && store.Valid() && store.cast == job.cast && store.machine == job.machine
    modifies store`table, store`staging
    ensures store.Valid()
    ensures ok <==> Clean(job, i) && forall k :: 0 <= k < |FileBatches(job, i)| ==> !refused(i, k)
    ensures ok ==> store.table == InsertAll(old(store.table), FileRows(job, i))
  {
    if job.files[i].None? {
      return false;
    }
    hide TableAfter, FileRows, FileBatches, InsertAll, KeyedRows;
    ghost var t := store.table;
    var bs := FileBatches(job, i);
    NothingAfter(job.cast, job.machine, t);
    assert bs[..0] == [];
    for k := 0 to |bs|
      invariant store.Valid() && AllCastable(job.cast, bs[..k]) && forall j :: 0 <= j < k ==> !refused(i, j)
      invariant store.table == TableAfter(job.cast, job.machine, t, bs[..k])
    {
      if refused(i, k) {
        return false;
      }
      var written := store.Write(bs[k]);
      if !written {
        assert !Castable(job.cast, bs[k]) && !AllCastable(job.cast, bs);
        return false;
      }
      TableAfterStep(job.cast, job.machine, t, bs, k);
    }
    assert bs[..|bs|] == bs;
    WrittenFile(job, i, t);
    return true;
  }

  // `refused(i, k)` says that the store fails write k of file i of its own accord.
  method OneThread(job: Job, store: DuckDbStore, refused: (nat, nat) -> bool) returns (ok: bool, events: nat)
    requires Sound(job) && store.Valid() && store.cast == job.cast && store.machine == job.machine
    modifies store`table, store`staging
    ensures store.Valid()
    ensures ok <==> AllClean(job, |job.files|) && NoneRefused(job, refused, |job.files|)
    ensures ok ==> store.table == InsertAll(old(store.table), AllRows(job, |job.files|))
    ensures ok ==> events == EventTotal(job, |job.files|)
  {
    hide FileRows, FileBatches, Clean, InsertAll;
    events := 0;
    ghost var t0 := store.table;
    assert InsertAll(t0, AllRows(job, 0)) == t0 by { InsertNothing(t0); }
    for i := 0 to |job.files|
      invariant store.Valid() && AllClean(job, i) && NoneRefused(job, refused, i)
      invariant store.table == InsertAll(t0, AllRows(job, i)) && events == EventTotal(job, i)
    {
      var cleaned := CleanInto(job, i, store, refused);
      if !cleaned {
        return false, events;
      }
      InsertAppend(t0, AllRows(job, i), FileRows(job, i));
      events := events + FileEvents(job, i);
    }
    return true, events;
  }

  lemma InsertNothing(t: Table)
    ensures InsertAll(t, []) == t
  {
  }

  ghost predicate NoneRefused(job: Job, refused: (nat, nat) -> bool, n: nat)
    requires Sound(job) && n <= |job.files|
  {
    forall i, k :: 0 <= i < n && 0 <= k < |FileBatches(job, i)| ==> !refused(i, k)
  }

  lemma NothingAfter(cast: Cast, machine: string, t: Table)
    ensures TableAfter(cast, machine, t, []) == t
  {
  }

  /******* The pool *******/

  datatype Thread = Asking | Cleaning(file: nat, next: nat) | Done

  // What thread t's store holds of the first n files, given who took which.
  ghost function Share(job: Job, owner: seq<nat>, t: nat, n: nat): Table
    requires Sound(job) && n <= |owner| <= |job.files|
  {
    if n == 0 then map[]
    else if owner[n - 1] == t then InsertAll(Share(job, owner, t, n - 1), FileRows(job, n - 1))
    else Share(job, owner, t, n - 1)
  }

  lemma {:induction false} ShareLonger(job: Job, owner: seq<nat>, more: seq<nat>, t: nat, n: nat)
    requires Sound(job) && n <= |owner| <= |more| <= |job.files| && owner == more[..|owner|]
    ensures Share(job, owner, t, n) == Share(job, more, t, n)
  {
    if n > 0 {
      assert owner[n - 1] == more[n - 1];
      ShareLonger(job, owner, more, t, n - 1);
    }
  }

  lemma {:induction false} ShareSkips(job: Job, owner: seq<nat>, t: nat, m: nat, n: nat)
    requires Sound(job) && m <= n <= |owner| <= |job.files|
    requires forall i :: m <= i < n ==> owner[i] != t
    ensures Share(job, owner, t, m) == Share(job, owner, t, n)
    decreases n
  {
    if m < n {
      ShareSkips(job, owner, t, m, n - 1);
    }
  }

  // Thread t's store against what it took.
  ghost predicate ThreadOk(job: Job, owner: seq<nat>, t: nat, at: Thread, table: Table)
    requires Sound(job) && |owner| <= |job.files|
  {
    match at
    case Cleaning(i, k) =>
      && i < |owner| && owner[i] == t && (forall j :: i < j < |owner| ==> owner[j] != t)
      && k <= |FileBatches(job, i)|
      && AllCastable(job.cast, FileBatches(job, i)[..k])
      && table == TableAfter(job.cast, job.machine, Share(job, owner, t, i), FileBatches(job, i)[..k])
    case _ => table == Share(job, owner, t, |owner|)
  }

  // Somebody else's fetch_add does not touch thread t.
  lemma ThreadOkLonger(job: Job, owner: seq<nat>, who: nat, t: nat, at: Thread, table: Table)
    requires Sound(job) && |owner| < |job.files| && ThreadOk(job, owner, t, at, table) && who != t
    ensures ThreadOk(job, owner + [who], t, at, table)
  {
    var more := owner + [who];
    hide TableAfter, FileBatches, FileRows, AllCastable;
    if at.Cleaning? {
      ShareLonger(job, owner, more, t, at.file);
    } else {
      ShareLonger(job, owner, more, t, |owner|);
      ShareSkips(job, more, t, |owner|, |owner| + 1);
    }
  }

  lemma TakenOk(job: Job, owner: seq<nat>, t: nat, table: Table)
    requires Sound(job) && |owner| < |job.files| && table == Share(job, owner, t, |owner|)
    ensures ThreadOk(job, owner + [t], t, Cleaning(|owner|, 0), table)
  {
    hide FileBatches, FileRows;
    ShareLonger(job, owner, owner + [t], t, |owner|);
    assert FileBatches(job, |owner|)[..0] == [];
  }

  lemma WrittenOk(job: Job, owner: seq<nat>, t: nat, i: nat, k: nat, table: Table)
    requires Sound(job) && |owner| <= |job.files| && ThreadOk(job, owner, t, Cleaning(i, k), table)
    requires k < |FileBatches(job, i)| && Castable(job.cast, FileBatches(job, i)[k])
    ensures ThreadOk(job, owner, t, Cleaning(i, k + 1),
                     InsertAll(table, KeyedRows(job.cast, job.machine, FileBatches(job, i)[k])))
  {
    hide TableAfter, FileBatches, FileRows, AllCastable, Share;
    TableAfterStep(job.cast, job.machine, Share(job, owner, t, i), FileBatches(job, i), k);
  }

  lemma FinishedOk(job: Job, owner: seq<nat>, t: nat, i: nat, k: nat, table: Table)
    requires Sound(job) && |owner| <= |job.files| && ThreadOk(job, owner, t, Cleaning(i, k), table)
    requires k == |FileBatches(job, i)|
    ensures job.files[i].Some? ==> Clean(job, i)
    ensures ThreadOk(job, owner, t, Asking, table)
  {
    hide TableAfter, FileRows, AllCastable;
    var bs := FileBatches(job, i);
    assert bs[..k] == bs;
    ShareSkips(job, owner, t, i + 1, |owner|);
    if job.files[i].Some? {
      WrittenFile(job, i, Share(job, owner, t, i));
    } else {
      UnreadFile(job, i, Share(job, owner, t, i));
    }
    hide FileBatches;
  }

  lemma UnreadFile(job: Job, i: nat, t: Table)
    requires Sound(job) && i < |job.files| && job.files[i].None?
    ensures FileRows(job, i) == [] && FileBatches(job, i) == [] && InsertAll(t, []) == t
    ensures TableAfter(job.cast, job.machine, t, []) == t
  {
  }

  // The store takes the first k writes of file i.
  ghost predicate TakesUpTo(refused: (nat, nat) -> bool, i: nat, k: nat) {
    forall j :: 0 <= j < k ==> !refused(i, j)
  }

  ghost predicate Finished(job: Job, refused: (nat, nat) -> bool, perFile: seq<int>, i: nat)
    requires Sound(job) && i < |job.files| == |perFile|
  {
    Clean(job, i) && TakesUpTo(refused, i, |FileBatches(job, i)|) && perFile[i] == FileEvents(job, i)
  }

  ghost predicate InProgress(refused: (nat, nat) -> bool, at: seq<Thread>, owner: seq<nat>, i: nat)
    requires i < |owner|
  {
    owner[i] < |at| && at[owner[i]].Cleaning? && at[owner[i]].file == i && TakesUpTo(refused, i, at[owner[i]].next)
  }

  // Nothing stands in the way of a success.
  ghost predicate Faultless(job: Job, refused: (nat, nat) -> bool)
    requires Sound(job)
  {
    AllClean(job, |job.files|) && NoneRefused(job, refused, |job.files|)
  }

  class ThreadPool {
    const job: Job
    const threads: nat
    const refused: (nat, nat) -> bool   // writes the stores fail of their own accord
    var next: nat                // the atomic counter
    var failed: bool
    var perFile: seq<int>
    var stores: seq<Table>
    var at: seq<Thread>
    ghost var owner: seq<nat>    // which thread's fetch_add returned each index

    ghost predicate Shape()
      reads this
    {
      && Sound(job) && |perFile| == |job.files| && |stores| == |at| == threads
      && |owner| == (if next < |job.files| then next else |job.files|)
      && forall i :: 0 <= i < |owner| ==> owner[i] < threads
    }

    ghost predicate Valid()
      reads this
    {
      && Shape()
      && (forall t :: 0 <= t < threads && !(failed && at[t].Done?) ==> ThreadOk(job, owner, t, at[t], stores[t]))
      && (forall t :: 0 <= t < threads && at[t].Done? ==> failed || next >= |job.files|)
      && (!failed ==> forall i :: 0 <= i < |owner| ==>
            InProgress(refused, at, owner, i) || Finished(job, refused, perFile, i))
      && (failed ==> !Faultless(job, refused))
    }

    constructor (job: Job, threads: nat, refused: (nat, nat) -> bool)
      requires Sound(job) && threads > 0
      ensures Valid() && this.job == job && this.threads == threads && this.refused == refused && next == 0 && !failed
      ensures forall t :: 0 <= t < threads ==> at[t] == Asking
    {
      this.job, this.threads, this.refused := job, threads, refused;
      this.next, this.failed := 0, false;
      this.perFile := seq(|job.files|, _ => 0);
      this.stores := seq(threads, _ => map[]);
      this.at := seq(threads, _ => Asking);
      this.owner := [];
    }

    // fetch_add, and the loop test on its result.
    method Ask(t: nat)
      requires Valid() && t < threads && at[t] == Asking
      modifies this`next, this`at, this`owner
      ensures Valid() && next == old(next) + 1
      ensures at == old(at)[t := if old(next) < |job.files| then Cleaning(old(next), 0) else Done]
    {
      hide ThreadOk, Finished;
      ghost var was := at;
      AskingShare(job, owner, t, stores[t]);
      assert forall j :: 0 <= j < |owner| && InProgress(refused, was, owner, j) ==> owner[j] != t;
      var i := next;
      next := next + 1;
      if i < |job.files| {
        TakenOk(job, owner, t, stores[t]);
        forall u | 0 <= u < threads && u != t && !(failed && at[u].Done?)
          ensures ThreadOk(job, owner + [t], u, at[u], stores[u])
        {
          ThreadOkLonger(job, owner, t, u, at[u], stores[u]);
        }
        ghost var owner0 := owner;
        at := at[t := Cleaning(i, 0)];
        owner := owner + [t];
        forall j | 0 <= j < |owner| && !failed
          ensures InProgress(refused, at, owner, j) || Finished(job, refused, perFile, j)
        {
          if j < i { assert InProgress(refused, was, owner0, j) || Finished(job, refused, perFile, j); }
        }
      } else {
        at := at[t := Done];
        DoneLikeAsking(job, owner, t, stores[t]);
        forall j | 0 <= j < |owner| && !failed
          ensures InProgress(refused, at, owner, j) || Finished(job, refused, perFile, j)
        {
          assert InProgress(refused, was, owner, j) || Finished(job, refused, perFile, j);
        }
      }
    }

    // One batch of the file in hand; a store that throws ends its thread.
    method WriteBatch(t: nat)
      requires Valid() && t < threads && at[t].Cleaning? && at[t].next < |FileBatches(job, at[t].file)|
      modifies this`failed, this`stores, this`at
      ensures Valid()
      ensures var i, k := old(at)[t].file, old(at)[t].next;
              var batch := FileBatches(job, i)[k];
              var ok := !refused(i, k) && Castable(job.cast, batch);
              && at == old(at)[t := if ok then Cleaning(i, k + 1) else Done]
              && failed == (old(failed) || !ok)
              && stores == (if ok
                            then old(stores)[t := InsertAll(old(stores)[t], KeyedRows(job.cast, job.machine, batch))]
                            else old(stores))
    {
      hide ThreadOk, Finished, FileBatches, InsertAll, KeyedRows, Share, Clean;
      var i, k := at[t].file, at[t].next;
      CleaningOk(job, owner, t, at[t], stores[t]);
      var batch := FileBatches(job, i)[k];
      ghost var was := at;
      if refused(i, k) || !(forall j :: 0 <= j < |batch| ==> job.cast(batch[j].ts).Some?) {
        at := at[t := Done];
        failed := true;
        Faulty(job, refused, i, k);
      } else {
        WrittenOk(job, owner, t, i, k, stores[t]);
        stores := stores[t := InsertAll(stores[t], KeyedRows(job.cast, job.machine, batch))];
        at := at[t := Cleaning(i, k + 1)];
        forall j | 0 <= j < |owner| && !failed
          ensures InProgress(refused, at, owner, j) || Finished(job, refused, perFile, j)
        {
          assert InProgress(refused, was, owner, j) || Finished(job, refused, perFile, j);
        }
      }
    }

    // clean_file returns: the count, or -1 for a file that cannot be opened.
    method FinishFile(t: nat)
      requires Valid() && t < threads && at[t].Cleaning? && at[t].next == |FileBatches(job, at[t].file)|
      modifies this`failed, this`perFile, this`at
      ensures Valid() && at == old(at)[t := Asking]
      ensures var i := old(at)[t].file;
              && perFile == old(perFile)[i := if job.files[i].None? then -1 else FileEvents(job, i)]
              && failed == (old(failed) || job.files[i].None?)
    {
      hide ThreadOk, FileBatches, Share, Clean, FileEvents;
      ghost var was, counted := at, perFile;
      var i := at[t].file;
      CleaningOk(job, owner, t, at[t], stores[t]);
      FinishedOk(job, owner, t, i, at[t].next, stores[t]);
      if job.files[i].None? {
        perFile := perFile[i := -1];
        failed := true;
        Unopened(job, refused, i);
      } else {
        perFile := perFile[i := FileEvents(job, i)];
      }
      at := at[t := Asking];
      forall j | 0 <= j < |owner| && !failed
        ensures InProgress(refused, at, owner, j) || Finished(job, refused, perFile, j)
      {
        assert InProgress(refused, was, owner, j) || Finished(job, refused, counted, j);
      }
    }

    // Threads run until all have returned; which one moves next is anybody's choice.
    method Join()
      requires Valid()
      modifies this
      ensures Valid() && forall t :: 0 <= t < threads ==> at[t].Done?
    {
      hide ThreadOk, Finished, InProgress, Batches;
      while exists t :: 0 <= t < threads && !at[t].Done?
        invariant Valid()
        decreases |job.files| - |owner|, Load(job, at)
      {
        var t :| 0 <= t < threads && !at[t].Done?;
        CurrentOk(job, owner, t, at[t], stores[t], failed);
        ghost var was := at;
        match at[t] {
          case Asking =>
            Ask(t);
            LoadChanges(job, was, t, at[t]);
          case Cleaning(i, k) =>
            if k < |FileBatches(job, i)| {
              WriteBatch(t);
              LoadChanges(job, was, t, at[t]);
            } else {
              FinishFile(t);
              LoadChanges(job, was, t, Asking);
            }
        }
      }
    }
  }

  // Work left in the threads' hands.
  ghost function Weight(job: Job, at: Thread): nat
    requires Sound(job)
  {
    match at
    case Asking => 1
    case Done => 0
    case Cleaning(i, k) => if i < |job.files| && k <= |FileBatches(job, i)| then 2 + |FileBatches(job, i)| - k else 0
  }

  ghost function Load(job: Job, at: seq<Thread>): nat
    requires Sound(job)
  {
    if at == [] then 0 else Load(job, at[..|at| - 1]) + Weight(job, at[|at| - 1])
  }

  lemma {:induction false} LoadChanges(job: Job, at: seq<Thread>, t: nat, x: Thread)
    requires Sound(job) && t < |at|
    ensures Load(job, at[t := x]) == Load(job, at) - Weight(job, at[t]) + Weight(job, x)
  {
    hide Weight;
    var n := |at| - 1;
    if t < n {
      LoadChanges(job, at[..n], t, x);
      assert at[t := x][..n] == at[..n][t := x];
    } else {
      assert at[t := x][..n] == at[..n];
    }
  }

  lemma CurrentOk(job: Job, owner: seq<nat>, t: nat, at: Thread, table: Table, failed: bool)
    requires Sound(job) && |owner| <= |job.files| && !at.Done? && ThreadOk(job, owner, t, at, table)
    ensures at.Cleaning? ==> at.file < |owner| && at.next <= |FileBatches(job, at.file)|
  {
  }

  lemma Faulty(job: Job, refused: (nat, nat) -> bool, i: nat, k: nat)
    requires Sound(job) && i < |job.files| && k < |FileBatches(job, i)|
    requires refused(i, k) || !Castable(job.cast, FileBatches(job, i)[k])
    ensures !Faultless(job, refused)
  {
    hide Castable, Batches;
    if !refused(i, k) {
      assert !Clean(job, i);
    }
  }

  lemma Unopened(job: Job, refused: (nat, nat) -> bool, i: nat)
    requires Sound(job) && i < |job.files| && job.files[i].None?
    ensures !Faultless(job, refused)
  {
    assert !Clean(job, i);
  }

  lemma CleaningOk(job: Job, owner: seq<nat>, t: nat, at: Thread, table: Table)
    requires Sound(job) && |owner| <= |job.files| && at.Cleaning? && ThreadOk(job, owner, t, at, table)
    ensures at.file < |owner| && owner[at.file] == t
  {
  }

  lemma AskingShare(job: Job, owner: seq<nat>, t: nat, table: Table)
    requires Sound(job) && |owner| <= |job.files| && ThreadOk(job, owner, t, Asking, table)
    ensures table == Share(job, owner, t, |owner|)
  {
  }

  lemma DoneLikeAsking(job: Job, owner: seq<nat>, t: nat, table: Table)
    requires Sound(job) && |owner| <= |job.files|
    ensures ThreadOk(job, owner, t, Asking, table) <==> ThreadOk(job, owner, t, Done, table)
  {
  }

  /******* The pool against one thread *******/

  ghost function Shares(job: Job, owner: seq<nat>, threads: nat): seq<Table>
    requires Sound(job) && |owner| == |job.files|
  {
    seq(threads, t requires 0 <= t < threads => Share(job, owner, t, |owner|))
  }

  // The rows of all files agree with each other and with what was there before.
  ghost predicate Consistent(job: Job, base: Table)
    requires Sound(job)
  {
    SelfConsistent(AllRows(job, |job.files|)) && AgreesWith(base, AllRows(job, |job.files|))
  }

  ghost predicate RowIn(rows: seq<KeyedRow>, k: Key, row: Row) {
    KeyedRow(k, row) in rows
  }

  lemma {:induction false} InsertedOrThere(t: Table, rows: seq<KeyedRow>, k: Key)
    requires k in InsertAll(t, rows)
    ensures (k in t && InsertAll(t, rows)[k] == t[k]) || RowIn(rows, k, InsertAll(t, rows)[k])
  {
    if rows != [] {
      var n := |rows| - 1;
      assert rows == rows[..n] + [rows[n]];
      if k in InsertAll(t, rows[..n]) {
        InsertedOrThere(t, rows[..n], k);
      }
    }
  }

  lemma {:induction false} ShareRows(job: Job, owner: seq<nat>, t: nat, n: nat, k: Key)
    requires Sound(job) && n <= |owner| <= |job.files| && k in Share(job, owner, t, n)
    ensures RowIn(AllRows(job, n), k, Share(job, owner, t, n)[k])
  {
    hide FileRows;
    if n > 0 {
      if owner[n - 1] == t {
        InsertedOrThere(Share(job, owner, t, n - 1), FileRows(job, n - 1), k);
      }
      if k in Share(job, owner, t, n - 1) {
        ShareRows(job, owner, t, n - 1, k);
      }
    }
  }

  lemma {:induction false} RowsShared(job: Job, owner: seq<nat>, threads: nat, n: nat, r: KeyedRow)
    requires Sound(job) && n <= |owner| <= |job.files| && r in AllRows(job, n)
    requires forall i :: 0 <= i < |owner| ==> owner[i] < threads
    ensures exists t: nat :: t < threads && r.key in Share(job, owner, t, n)
  {
    hide FileRows;
    if n > 0 {
      if r in AllRows(job, n - 1) {
        RowsShared(job, owner, threads, n - 1, r);
        var t: nat :| t < threads && r.key in Share(job, owner, t, n - 1);
        InsertedKeysStay(Share(job, owner, t, n - 1), FileRows(job, n - 1));
        assert r.key in Share(job, owner, t, n);
      } else {
        var t := owner[n - 1];
        InsertedKeysStay(Share(job, owner, t, n - 1), FileRows(job, n - 1));
        assert r.key in KeysOf(FileRows(job, n - 1));
        assert r.key in Share(job, owner, t, n);
      }
    }
  }

  lemma SharesAreRows(job: Job, owner: seq<nat>, threads: nat, k: Key)
    requires Sound(job) && |owner| == |job.files| && forall i :: 0 <= i < |owner| ==> owner[i] < threads
    ensures (exists t :: 0 <= t < threads && k in Shares(job, owner, threads)[t])
            <==> k in KeysOf(AllRows(job, |owner|))
  {
    var n := |owner|;
    hide AllRows;
    if k in KeysOf(AllRows(job, n)) {
      var r :| r in AllRows(job, n) && r.key == k;
      RowsShared(job, owner, threads, n, r);
      var t: nat :| t < threads && k in Share(job, owner, t, n);
      hide Share;
      assert k in Shares(job, owner, threads)[t];
    }
    if t :| 0 <= t < threads && k in Shares(job, owner, threads)[t] {
      ShareRows(job, owner, t, n, k);
      assert KeyedRow(k, Share(job, owner, t, n)[k]) in AllRows(job, n);
    }
  }

  // For every number of threads and every way the counter handed out the files:
  // the same keys as one thread, and the same table when shared keys agree.
  lemma PoolIsOneThread(job: Job, owner: seq<nat>, threads: nat, base: Table, merged: Table)
    requires Sound(job) && |owner| == |job.files| && forall i :: 0 <= i < |owner| ==> owner[i] < threads
    requires IsUnion(base, Shares(job, owner, threads), merged)
    ensures var one := InsertAll(base, AllRows(job, |job.files|));
            merged.Keys == one.Keys && (Consistent(job, base) ==> merged == one)
  {
    var rows := AllRows(job, |job.files|);
    var one := InsertAll(base, rows);
    InsertKeys(base, rows);
    hide AllRows, InsertAll;
    forall k ensures k in merged <==> k in one {
      SharesAreRows(job, owner, threads, k);
    }
    if Consistent(job, base) {
      InsertHolds(base, rows);
      forall k | k in one ensures merged[k] == one[k] {
        if k !in base {
          var t :| 0 <= t < threads && k in Shares(job, owner, threads)[t]
              && merged[k] == Shares(job, owner, threads)[t][k];
          ShareRows(job, owner, t, |owner|, k);
        }
      }
    }
  }

  // Arch "mono-MT": pool, join, sum, merge. It succeeds on exactly the inputs on
  // which one thread does.
  method MultiThread(job: Job, threads: nat, dst: DuckDbStore, refused: (nat, nat) -> bool)
      returns (ok: bool, events: nat)
    requires Sound(job) && threads > 0 && dst.Valid()
    modifies dst`table, dst`attached
    ensures dst.Valid()
    ensures ok <==> AllClean(job, |job.files|) && NoneRefused(job, refused, |job.files|)
    ensures ok ==> events == EventTotal(job, |job.files|)
    ensures ok ==> dst.table.Keys == InsertAll(old(dst.table), AllRows(job, |job.files|)).Keys
    ensures ok && Consistent(job, old(dst.table)) ==> dst.table == InsertAll(old(dst.table), AllRows(job, |job.files|))
    ensures !ok ==> dst.table == old(dst.table)
  {
    hide InsertAll, AllRows, Share, FileRows, IsUnion, Consistent, Batches;
    var pool := new ThreadPool(job, threads, refused);
    pool.Join();
    events, ok := 0, !pool.failed;
    if !ok {
      return;
    }
    AllFinished(pool);
    for i := 0 to |job.files|
      invariant events == EventTotal(job, i)
    {
      assert Finished(job, refused, pool.perFile, i);
      events := events + pool.perFile[i];
    }
    ghost var base := dst.table;
    var stores := pool.stores;
    var sources := seq(threads, t requires 0 <= t < threads => Readable(stores[t]));
    ok := dst.MergeAll(sources);
    AllReadableTables(sources, pool.stores);
    assert pool.stores == Shares(job, pool.owner, threads);
    PoolIsOneThread(job, pool.owner, threads, base, dst.table);
  }

  lemma AllFinished(pool: ThreadPool)
    requires pool.Valid() && !pool.failed && pool.threads > 0 && forall t :: 0 <= t < pool.threads ==> pool.at[t].Done?
    ensures |pool.owner| == |pool.job.files| && Faultless(pool.job, pool.refused)
    ensures forall i :: 0 <= i < |pool.job.files| ==> Finished(pool.job, pool.refused, pool.perFile, i)
    ensures forall t :: 0 <= t < pool.threads ==> pool.stores[t] == Share(pool.job, pool.owner, t, |pool.owner|)
  {
    hide Share, FileEvents;
    assert pool.at[0].Done?;
    forall i | 0 <= i < |pool.job.files| ensures Finished(pool.job, pool.refused, pool.perFile, i) {
      assert !InProgress(pool.refused, pool.at, pool.owner, i);
    }
    forall i | 0 <= i < |pool.job.files|
      ensures Clean(pool.job, i) && TakesUpTo(pool.refused, i, |FileBatches(pool.job, i)|)
    {
      assert Finished(pool.job, pool.refused, pool.perFile, i);
    }
    forall t | 0 <= t < pool.threads ensures pool.stores[t] == Share(pool.job, pool.owner, t, |pool.owner|) {
      assert ThreadOk(pool.job, pool.owner, t, pool.at[t], pool.stores[t]);
    }
  }

  lemma {:induction false} AllReadableTables(sources: seq<Source>, tables: seq<Table>)
    requires |sources| == |tables| && forall i :: 0 <= i < |sources| ==> sources[i] == Readable(tables[i])
    ensures AllReadable(sources) && Tables(sources) == tables
  {
    if sources != [] {
      var n := |sources| - 1;
      AllReadableTables(sources[..n], tables[..n]);
    }
  }
}
