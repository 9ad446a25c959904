// The cleaning agent: claim, clean, report; say goodbye after a minute of silence.
module Worker {
  import opened Protocol
  import opened Extractor
  import opened Store
  import opened Pipeline

  const IDLE_EXIT: nat := 60
  const BEAT_EVERY: int := 1000

  datatype WorkMsg = Stop | Work(path: Path) | Garbage

  // What a path holds: None when it cannot be opened. A torn file makes its
  // reader throw after the rows it can deliver.
  datatype DayFile = DayFile(rows: Option<seq<RawRow>>, torn: bool)

  type Disk = Path -> DayFile

  // What the store and the clock do while one item is cleaned.
  datatype Weather = Weather(refused: nat -> bool, start: int, clock: nat -> int)

  /******* What one item does *******/

  ghost predicate Openable(file: DayFile, heads: nat) {
    file.rows.Some? ==> Shaped(file.rows.value, heads)
  }

  // What came of an item: its report, and how often the store beat meanwhile.
  datatype Done = Done(path: Path, code: int, beats: nat)

  // From table t the worker leaves table u: exactly the batches before the first
  // failure are stored. The code says how much that is, all of the file, some of
  // it, or nothing.
  ghost predicate ItemDone(cast: Cast, machine: string, heads: nat, file: DayFile, weather: Weather, t: Table, d: Done,
                           u: Table)
    requires Openable(file, heads)
  {
    match file.rows
    case None => d.code == UNREADABLE && d.beats == 0 && u == t
    case Some(rows) => exists k: nat :: StoppedAfter(cast, machine, heads, rows, file.torn, weather, t, d, u, k)
  }

  ghost predicate StoppedAfter(cast: Cast, machine: string, heads: nat, rows: seq<RawRow>, torn: bool, weather: Weather,
                               t: Table, d: Done, u: Table, k: nat)
    requires Shaped(rows, heads)
  {
    var bs := Batches(rows, heads);
    && k <= |bs| && StopsAt(cast, torn, weather.refused, bs, k) && Persisted(cast, machine, bs, t, k, u)
    && d.code == (if k == |bs| then |Transitions(Cpp, rows, heads)| else if k > 0 then PARTIAL else UNREADABLE)
    && d.beats == Beats(1000, weather.start, weather.clock, k)
  }

  // The report tells the table: -1 that no batch of the file is in it, -2 that some
  // are but not the last, and a count that all of them are.
  lemma CodeTells(cast: Cast, machine: string, heads: nat, file: DayFile, weather: Weather, t: Table, d: Done, u: Table)
    returns (k: nat)
    requires Openable(file, heads) && ItemDone(cast, machine, heads, file, weather, t, d, u)
    ensures file.rows.None? ==> d.code == -1 && u == t
    ensures file.rows.Some? ==>
              var bs := Batches(file.rows.value, heads);
              && bs != [] && k <= |bs| && Persisted(cast, machine, bs, t, k, u)
              && (d.code == -1 <==> k == 0) && (d.code == -2 <==> 0 < k < |bs|) && (d.code >= 0 <==> k == |bs|)
  {
    k := 0;
    if file.rows.Some? {
      k :| StoppedAfter(cast, machine, heads, file.rows.value, file.torn, weather, t, d, u, k);
      BatchesLaw(file.rows.value, heads);
      hide Batches, AllCastable, Transitions, Beats, StopsAt;
    }
  }

  // The worker counts the file exactly when it can be opened, no timestamp in it
  // is malformed, it is not torn and the store refuses none of its batches.
  lemma CountedIff(cast: Cast, machine: string, heads: nat, file: DayFile, weather: Weather, t: Table, d: Done,
                   u: Table)
    requires Openable(file, heads) && ItemDone(cast, machine, heads, file, weather, t, d, u)
    ensures d.code >= 0 <==> file.rows.Some? && !file.torn
                             && var bs := Batches(file.rows.value, heads);
                                AllCastable(cast, bs) && forall k :: 0 <= k < |bs| ==> !weather.refused(k)
  {
    if file.rows.Some? {
      var bs := Batches(file.rows.value, heads);
      var k: nat :| StoppedAfter(cast, machine, heads, file.rows.value, file.torn, weather, t, d, u, k);
      BatchesLaw(file.rows.value, heads);
      hide Batches, AllCastable, TableAfter, Transitions, Beats, StopsAt;
      StopsAtEnd(cast, file.torn, weather.refused, bs, k);
    }
  }

  lemma StopsAtEnd(cast: Cast, torn: bool, refused: nat -> bool, bs: seq<seq<Event>>, k: nat)
    requires bs != [] && StopsAt(cast, torn, refused, bs, k)
    ensures k == |bs| <==> !torn && AllCastable(cast, bs) && forall j :: 0 <= j < |bs| ==> !refused(j)
  {
    hide Castable;
    if k == |bs| {
      forall j | 0 <= j < |bs| ensures Castable(cast, bs[j]) && !refused(j) {
        assert !Fails(cast, torn, refused, bs, j);
      }
      assert !Fails(cast, torn, refused, bs, |bs| - 1);
    } else {
      assert Fails(cast, torn, refused, bs, k);
    }
  }

  ghost predicate Persisted(cast: Cast, machine: string, bs: seq<seq<Event>>, t: Table, k: nat, u: Table)
    requires k <= |bs|
  {
    AllCastable(cast, bs[..k]) && u == TableAfter(cast, machine, t, bs[..k])
  }

  // Attempt i took the table from tables[i] to tables[i + 1] and reported done[i].
  ghost predicate Attempts(cast: Cast, machine: string, heads: nat, file: DayFile, weathers: seq<Weather>,
                           done: seq<Done>, tables: seq<Table>)
    requires Openable(file, heads)
  {
    && |tables| == |done| + 1 && |weathers| == |done|
    && forall i :: 0 <= i < |done| ==>
         ItemDone(cast, machine, heads, file, weathers[i], tables[i], done[i], tables[i + 1])
  }

  // Completing the file after an attempt is completing it without the attempt.
  lemma AttemptInvisible(cast: Cast, machine: string, heads: nat, file: DayFile, weather: Weather, t: Table, d: Done,
                         u: Table)
    requires Openable(file, heads) && ItemDone(cast, machine, heads, file, weather, t, d, u)
    requires file.rows.Some? && AllCastable(cast, Batches(file.rows.value, heads))
    ensures var bs := Batches(file.rows.value, heads);
            TableAfter(cast, machine, u, bs) == TableAfter(cast, machine, t, bs)
  {
    var rows := file.rows.value;
    var bs := Batches(rows, heads);
    var k: nat :| StoppedAfter(cast, machine, heads, rows, file.torn, weather, t, d, u, k);
    hide TableAfter, AllCastable, Batches, Transitions, Beats, StopsAt;
    RetriedFileIsClean(cast, machine, t, bs, k);
  }

  lemma CountedIsWhole(cast: Cast, machine: string, heads: nat, file: DayFile, weather: Weather, t: Table, d: Done,
                       u: Table)
    requires Openable(file, heads) && ItemDone(cast, machine, heads, file, weather, t, d, u) && d.code >= 0
    ensures file.rows.Some?
    ensures var bs := Batches(file.rows.value, heads);
            && AllCastable(cast, bs) && u == TableAfter(cast, machine, t, bs)
            && d.code == |Transitions(Cpp, file.rows.value, heads)|
  {
    var rows := file.rows.value;
    var bs := Batches(rows, heads);
    var k: nat :| StoppedAfter(cast, machine, heads, rows, file.torn, weather, t, d, u, k);
    assert bs[..|bs|] == bs;
    hide TableAfter, AllCastable, Batches, Transitions, Beats, StopsAt;
  }

  lemma {:induction false} AttemptsInvisible(cast: Cast, machine: string, heads: nat, file: DayFile,
                                             weathers: seq<Weather>, done: seq<Done>, tables: seq<Table>, n: nat)
    requires Openable(file, heads) && Attempts(cast, machine, heads, file, weathers, done, tables) && n <= |done|
    requires file.rows.Some? && AllCastable(cast, Batches(file.rows.value, heads))
    ensures var bs := Batches(file.rows.value, heads);
            TableAfter(cast, machine, tables[n], bs) == TableAfter(cast, machine, tables[0], bs)
  {
    hide TableAfter, AllCastable, Batches, ItemDone;
    if n > 0 {
      AttemptsInvisible(cast, machine, heads, file, weathers, done, tables, n - 1);
      AttemptInvisible(cast, machine, heads, file, weathers[n - 1], tables[n - 1], done[n - 1], tables[n]);
    }
  }

  // However often an item was attempted before, and however far each attempt
  // got, the one that reports a count leaves the table of one clean run.
  lemma RetryIsOneRun(cast: Cast, machine: string, heads: nat, file: DayFile, weathers: seq<Weather>, done: seq<Done>,
                      tables: seq<Table>)
    requires Openable(file, heads) && Attempts(cast, machine, heads, file, weathers, done, tables)
    requires done != [] && done[|done| - 1].code >= 0
    ensures file.rows.Some?
    ensures var bs := Batches(file.rows.value, heads);
            && AllCastable(cast, bs) && tables[|done|] == TableAfter(cast, machine, tables[0], bs)
            && done[|done| - 1].code == |Transitions(Cpp, file.rows.value, heads)|
  {
    hide TableAfter, AllCastable, Batches, ItemDone, Transitions;
    var n := |done| - 1;
    CountedIsWhole(cast, machine, heads, file, weathers[n], tables[n], done[n], tables[n + 1]);
    AttemptsInvisible(cast, machine, heads, file, weathers, done, tables, n);
  }

  /******* What a run reports *******/

  // The beats of the items together.
  function BeatSum(done: seq<Done>): nat {
    if done == [] then 0 else BeatSum(done[..|done| - 1]) + done[|done| - 1].beats
  }

  function Report(done: seq<Done>, id: WorkerId): seq<Frame> {
    if done == [] then []
    else
      var d := done[|done| - 1];
      Report(done[..|done| - 1], id) + [Claim(d.path, id), Result(d.path, d.code, id)]
  }

  // The script is what the work socket delivers; after it, empty ticks forever.
  function Tick(script: seq<Option<WorkMsg>>, i: nat): Option<WorkMsg> {
    if i < |script| then script[i] else None
  }

  function PathsServed(script: seq<Option<WorkMsg>>, n: nat): seq<Path> {
    if n == 0 then []
    else
      var m := Tick(script, n - 1);
      PathsServed(script, n - 1) + (if m.Some? && m.value.Work? then [m.value.path] else [])
  }

  function Empties(script: seq<Option<WorkMsg>>, n: nat): nat {
    if n == 0 then 0 else Empties(script, n - 1) + if Tick(script, n - 1).None? then 1 else 0
  }

  // The last k ticks before n were empty.
  ghost predicate SilentFor(script: seq<Option<WorkMsg>>, n: nat, k: nat) {
    k <= n && forall i :: n - k <= i < n ==> Tick(script, i).None?
  }

  // The run consumed n ticks: to the first STOP, or to the first moment at which
  // the last 60 ticks were empty, whichever came first.
  ghost predicate EndsAt(script: seq<Option<WorkMsg>>, n: nat, stopped: bool) {
    && (forall i :: 0 <= i < n && Tick(script, i) == Some(Stop) ==> stopped && i == n - 1)
    && (stopped ==> n > 0 && Tick(script, n - 1) == Some(Stop))
    && (forall i :: 0 <= i <= n && SilentFor(script, i, IDLE_EXIT) ==> !stopped && i == n)
    && (!stopped ==> SilentFor(script, n, IDLE_EXIT))
  }

  // The script alone decides when and how a run ends.
  lemma EndIsDetermined(script: seq<Option<WorkMsg>>, m: nat, a: bool, n: nat, b: bool)
    requires EndsAt(script, m, a) && EndsAt(script, n, b)
    ensures m == n && a == b
  {
    EndNotBefore(script, m, a, n, b);
    EndNotBefore(script, n, b, m, a);
  }

  lemma EndNotBefore(script: seq<Option<WorkMsg>>, m: nat, a: bool, n: nat, b: bool)
    requires EndsAt(script, m, a) && EndsAt(script, n, b)
    ensures n <= m
  {
    assert a ==> Tick(script, m - 1) == Some(Stop);
    assert !a ==> SilentFor(script, m, IDLE_EXIT);
  }

  // An idle exit comes after sixty empty ticks in a row, and after no sooner sixty.
  lemma SixtyTicks(script: seq<Option<WorkMsg>>, n: nat)
    requires EndsAt(script, n, false)
    ensures SixtyEmpty(script, n) && forall m: nat :: m < n ==> !SixtyEmpty(script, m)
  {
    forall m: nat | m < n ensures !SixtyEmpty(script, m) {
      assert !SilentFor(script, m, IDLE_EXIT);
    }
  }

  ghost predicate SixtyEmpty(script: seq<Option<WorkMsg>>, n: nat) {
    n >= 60 && forall i :: n - 60 <= i < n ==> Tick(script, i).None?
  }

  // The loop after i ticks, the last `idle` of them empty.
  ghost predicate Ticking(script: seq<Option<WorkMsg>>, i: nat, idle: nat, stopped: bool) {
    && idle <= IDLE_EXIT && SilentFor(script, i, idle)
    && (i > idle ==> Tick(script, i - idle - 1).Some?)
    && (forall j :: 0 <= j < i && Tick(script, j) == Some(Stop) ==> stopped && j == i - 1)
    && (stopped ==> idle == 0 && i > 0 && Tick(script, i - 1) == Some(Stop))
    && (forall j :: 0 <= j < i ==> !SilentFor(script, j, IDLE_EXIT))
  }

  lemma TickStep(script: seq<Option<WorkMsg>>, i: nat, idle: nat)
    requires Ticking(script, i, idle, false) && idle < IDLE_EXIT
    ensures var m := Tick(script, i);
            Ticking(script, i + 1, if m.None? then idle + 1 else 0, m == Some(Stop))
  {
    assert !SilentFor(script, i, IDLE_EXIT) by {
      if i >= IDLE_EXIT { assert Tick(script, i - idle - 1).Some?; }
    }
  }

  lemma TicksEnd(script: seq<Option<WorkMsg>>, i: nat, idle: nat, stopped: bool)
    requires Ticking(script, i, idle, stopped) && (stopped || idle == IDLE_EXIT)
    ensures EndsAt(script, i, stopped)
  {
    if stopped {
      assert !SilentFor(script, i, IDLE_EXIT) by {
        if i >= IDLE_EXIT { assert Tick(script, i - 1).Some?; }
      }
    }
  }

  // How a run is over: at a STOP, on silence, or unwound by a results send that
  // throws, with the item in hand not yet claimed or not yet reported.
  datatype Ending = Stopped | Silent | AtClaim(path: Path) | AtResult

  // What the run sends, or tries to send, behind the reports of the items cleaned.
  function Tail(ending: Ending, id: WorkerId): seq<Frame> {
    match ending
    case Stopped => []
    case Silent => [Bye(id)]
    case AtClaim(path) => [Claim(path, id)]
    case AtResult => []
  }

  ghost predicate Ended(script: seq<Option<WorkMsg>>, n: nat, ending: Ending) {
    match ending
    case Stopped => EndsAt(script, n, true)
    case Silent => EndsAt(script, n, false)
    case _ => Ticking(script, n, 0, false) && n > 0 && Tick(script, n - 1).Some? && Tick(script, n - 1).value.Work?
  }

  function InHand(ending: Ending): seq<Path> {
    if ending.AtClaim? then [ending.path] else []
  }

  // The channel takes frame number n.
  predicate Takes(room: Option<nat>, n: nat) {
    room.None? || n < room.value
  }

  // Behind `before` the trace went out whole, or all of it but its last frame,
  // whose send threw for want of room.
  ghost predicate CutOff(room: Option<nat>, before: seq<Frame>, trace: seq<Frame>, after: seq<Frame>, threw: bool) {
    && (!threw ==> after == before + trace)
    && (threw ==> trace != [] && after == before + trace[..|trace| - 1])
    && (threw <==> trace != [] && !Takes(room, |before| + |trace| - 1))
  }

  // What has been sent so far, none of it refused.
  ghost predicate SentOut(room: Option<nat>, before: seq<Frame>, sent: seq<Frame>, after: seq<Frame>) {
    after == before + sent && (sent != [] ==> Takes(room, |before| + |sent| - 1))
  }

  lemma NothingSent(room: Option<nat>, before: seq<Frame>)
    ensures SentOut(room, before, [], before)
  {
  }

  lemma OneSent(room: Option<nat>, before: seq<Frame>, sent: seq<Frame>, after: seq<Frame>, f: Frame, ok: bool)
    requires SentOut(room, before, sent, after) && (ok <==> Takes(room, |after|))
    ensures ok ==> SentOut(room, before, sent + [f], after + [f])
    ensures CutOff(room, before, sent + [f], after + (if ok then [f] else []), !ok)
  {
    assert (sent + [f])[..|sent|] == sent;
  }

  // A claim and its result.
  lemma PairSent(room: Option<nat>, before: seq<Frame>, sent: seq<Frame>, mid: seq<Frame>, f: Frame, g: Frame,
                 first: bool, second: bool)
    requires SentOut(room, before, sent, mid)
    requires (first <==> Takes(room, |mid|)) && (second <==> first && Takes(room, |mid| + 1))
    ensures var after := mid + (if first then [f] else []) + (if second then [g] else []);
            && (!first ==> CutOff(room, before, sent + [f], after, true))
            && (first && !second ==> CutOff(room, before, sent + [f, g], after, true))
            && (second ==> SentOut(room, before, sent + [f, g], after))
  {
    OneSent(room, before, sent, mid, f, first);
    assert sent + [f] + [g] == sent + [f, g];
    if first {
      OneSent(room, before, sent + [f], mid + [f], g, second);
    }
    hide SentOut, CutOff;
  }

  lemma AllSent(room: Option<nat>, before: seq<Frame>, sent: seq<Frame>, after: seq<Frame>)
    requires SentOut(room, before, sent, after)
    ensures CutOff(room, before, sent, after, false)
  {
  }

  // Table i is the store before item i; each item does what ItemDone allows.
  ghost predicate ItemsDone(cast: Cast, machine: string, heads: nat, disk: Disk, weather: nat -> Weather,
                            done: seq<Done>, tables: seq<Table>)
    requires forall p :: Openable(disk(p), heads)
  {
    && |tables| == |done| + 1
    && forall i :: 0 <= i < |done| ==>
         ItemDone(cast, machine, heads, disk(done[i].path), weather(i), tables[i], done[i], tables[i + 1])
  }

  // Heartbeats that got through, of those numbered from a up to b.
  function Delivered(lost: nat -> bool, a: nat, b: nat): seq<nat>
    requires a <= b
  {
    if a == b then [] else Delivered(lost, a, b - 1) + (if lost(b - 1) then [] else [b - 1])
  }

  // Sequence numbers rise strictly, whichever sends were lost.
  lemma {:induction false} DeliveredIncrease(lost: nat -> bool, a: nat, b: nat)
    requires a <= b
    ensures forall k :: 0 <= k < |Delivered(lost, a, b)| ==>
            a <= Delivered(lost, a, b)[k] < b && !lost(Delivered(lost, a, b)[k])
    ensures forall k :: 0 < k < |Delivered(lost, a, b)| ==> Delivered(lost, a, b)[k - 1] < Delivered(lost, a, b)[k]
    ensures forall n :: a <= n < b && !lost(n) ==> n in Delivered(lost, a, b)
    decreases b - a
  {
    if a < b {
      DeliveredIncrease(lost, a, b - 1);
    }
  }

  lemma {:induction false} DeliveredSplit(lost: nat -> bool, a: nat, b: nat, c: nat)
    requires a <= b <= c
    ensures Delivered(lost, a, c) == Delivered(lost, a, b) + Delivered(lost, b, c)
    decreases c - b
  {
    if b < c {
      DeliveredSplit(lost, a, b, c - 1);
    }
  }

  /******* The agent *******/

  class CleaningWorker {
    const id: WorkerId
    const heads: nat
    const store: DuckDbStore
    const disk: Disk
    const lost: nat -> bool        // heartbeats whose send fails
    const room: Option<nat>        // results frames the channel takes before a send throws
    var hbSeq: nat
    var heartbeats: seq<nat>       // what reached the heartbeat channel
    var results: seq<Frame>        // what reached the results channel

    constructor (id: WorkerId, heads: nat, store: DuckDbStore, disk: Disk, lost: nat -> bool, room: Option<nat>)
      ensures this.id == id && this.heads == heads && this.store == store && this.disk == disk && this.lost == lost
      ensures this.room == room && hbSeq == 0 && heartbeats == [] && results == []
    {
      this.id, this.heads, this.store, this.disk, this.lost, this.room := id, heads, store, disk, lost, room;
      this.hbSeq, this.heartbeats, this.results := 0, [], [];
    }

    ghost predicate Ready()
      reads this, store
    {
      store.Valid() && forall p :: Openable(disk(p), heads)
    }

    // A failed send loses the beat and nothing else; its number is not reused.
    method Beat()
      modifies this`hbSeq, this`heartbeats
      ensures hbSeq == old(hbSeq) + 1
      ensures heartbeats == old(heartbeats) + Delivered(lost, old(hbSeq), hbSeq)
    {
      if !lost(hbSeq) {
        heartbeats := heartbeats + [hbSeq];
      }
      hbSeq := hbSeq + 1;
      assert Delivered(lost, old(hbSeq), old(hbSeq)) == [];
    }

    // The results socket keeps its throwing send.
    method Send(f: Frame) returns (ok: bool)
      modifies this`results
      ensures ok <==> Takes(room, |old(results)|)
      ensures results == old(results) + (if ok then [f] else [])
    {
      ok := Takes(room, |results|);
      if ok {
        results := results + [f];
      }
    }

    method BeatTimes(beats: nat)
      modifies this`hbSeq, this`heartbeats
      ensures hbSeq == old(hbSeq) + beats
      ensures heartbeats == old(heartbeats) + Delivered(lost, old(hbSeq), hbSeq)
    {
      hide Delivered;
      DeliveredNone(lost, hbSeq);
      for i := 0 to beats
        invariant hbSeq == old(hbSeq) + i
        invariant heartbeats == old(heartbeats) + Delivered(lost, old(hbSeq), hbSeq)
      {
        DeliveredSplit(lost, old(hbSeq), hbSeq, hbSeq + 1);
        Beat();
      }
    }

    // An item's claim, its cleaning and its report; a refused send ends it there.
    method Handle(path: Path, weather: Weather) returns (claimed: bool, reported: bool, code: int, beats: nat)
      requires Ready()
      modifies this`hbSeq, this`heartbeats, this`results, store`table, store`staging
      ensures Ready()
      ensures claimed <==> Takes(room, |old(results)|)
      ensures reported <==> claimed && Takes(room, |old(results)| + 1)
      ensures results == old(results) + (if claimed then [Claim(path, id)] else [])
              + (if reported then [Result(path, code, id)] else [])
      ensures claimed ==> ItemDone(store.cast, store.machine, heads, disk(path), weather, old(store.table),
                                   Done(path, code, beats), store.table)
      ensures !claimed ==> store.table == old(store.table) && beats == 0
      ensures hbSeq == old(hbSeq) + beats + (if reported then 1 else 0)
      ensures heartbeats == old(heartbeats) + Delivered(lost, old(hbSeq), hbSeq)
    {
      hide Delivered, ItemDone, Openable;
      DeliveredNone(lost, hbSeq);
      reported, code, beats := false, 0, 0;
      claimed := Send(Claim(path, id));
      if !claimed {
        return;
      }
      code, beats := Clean(path, weather);
      BeatTimes(beats);
      reported := Send(Result(path, code, id));
      if reported {
        DeliveredSplit(lost, old(hbSeq), hbSeq, hbSeq + 1);
        Beat();
      }
    }

    // The try block: a throw is one bad item, and how much was written decides
    // which failure code it gets.
    method Clean(path: Path, weather: Weather) returns (code: int, beats: nat)
      requires Ready()
      modifies store`table, store`staging
      ensures Ready()
      ensures ItemDone(store.cast, store.machine, heads, disk(path), weather, old(store.table),
                       Done(path, code, beats), store.table)
    {
      var beating := new BeatingStore(store, BEAT_EVERY, weather.start);
      var file := disk(path);
      var r, accepted := CleanFile(file.rows, file.torn, heads, beating, weather.refused, weather.clock);
      code := match r
        case Cleaned(n) => n
        case Unreadable => UNREADABLE
        case Threw => if beating.written > 0 then PARTIAL else UNREADABLE;
      beats := beating.beats;
      hide TableAfter, Batches, Transitions, AllCastable, Beats, StopsAt;
      if file.rows.Some? {
        assert StoppedAfter(store.cast, store.machine, heads, file.rows.value, file.torn, weather, old(store.table),
                            Done(path, code, beats), store.table, accepted);
      }
    }

    // What the run would send if every send went through is one claim and one
    // result per item cleaned, in order, and a goodbye exactly when it ended on
    // silence. A throwing send cuts it off there: only its last frame is missing.
    method Run(script: seq<Option<WorkMsg>>, weather: nat -> Weather)
      returns (threw: bool, ghost n: nat, ghost ending: Ending, ghost done: seq<Done>, ghost tables: seq<Table>)
      requires Ready()
      modifies this`hbSeq, this`heartbeats, this`results, store`table, store`staging
      ensures Ready()
      ensures Ended(script, n, ending)
      ensures PathsServed(script, n) == PathsDone(done) + InHand(ending)
      ensures var trace := Report(done, id) + Tail(ending, id);
              CutOff(room, old(results), trace, results, threw)
      ensures ending.AtClaim? || ending.AtResult? ==> threw
      ensures |tables| == |done| + 1 && ItemsDone(store.cast, store.machine, heads, disk, weather, done, tables)
      ensures tables[0] == old(store.table) && tables[|done|] == store.table
      ensures hbSeq == old(hbSeq) + 1 + Empties(script, n) + |done|
              + BeatSum(done) - (if ending.AtResult? then 1 else 0)
      ensures heartbeats == old(heartbeats) + Delivered(lost, old(hbSeq), hbSeq)
    {
      hide Delivered, ItemDone, ItemsDone, Openable, Ticking, PathsServed, PathsDone, Report, EndsAt, Empties,
           Accounted, SentOut, CutOff, BeatSum;
      threw, n, ending, done, tables := false, 0, Silent, [], [store.table];
      BeatSumNone();
      var i, idle, halted, handled: nat := 0, 0, false, 0;
      ghost var results0, hb0, seq0 := results, heartbeats, hbSeq;
      ghost var sent: seq<Frame> := [];
      NothingSent(room, results);
      Beat();
      NothingServed(script, id, store.cast, store.machine, heads, disk, weather, store.table);
      while idle < IDLE_EXIT && !halted
        invariant Ready() && n == i && ending == (if halted then Stopped else Silent) && idle <= IDLE_EXIT
        invariant Ticking(script, i, idle, halted) && handled == |done| && |sent| == 2 * |done|
        invariant Accounted(script, i, id, store.cast, store.machine, heads, disk, weather, done, tables,
                            old(store.table),
                            store.table, sent)
        invariant SentOut(room, results0, sent, results)
        invariant hbSeq == seq0 + 1 + Empties(script, i) + handled + BeatSum(done)
        invariant heartbeats == hb0 + Delivered(lost, seq0, hbSeq)
        decreases if halted then 0 else 1, if i < |script| then |script| - i else 0, IDLE_EXIT - idle
      {
        var msg := Tick(script, i);
        ghost var hb := hbSeq;
        TickStep(script, i, idle);
        EmptiesStep(script, i);
        DeliveredNone(lost, hb);
        i := i + 1;
        n := i;
        idle := if msg.None? then idle + 1 else 0;
        if msg.Some? && msg.value.Work? {
          var path := msg.value.path;
          ghost var t, before := store.table, results;
          var claimed, reported, code, beats := Handle(path, weather(handled));
          DeliveredSplit(lost, seq0, hb, hbSeq);
          PairSent(room, results0, sent, before, Claim(path, id), Result(path, code, id), claimed, reported);
          if !claimed {
            ending := AtClaim(path);
            ItemTaken(script, i - 1, id, store.cast, store.machine, heads, disk, weather, done, tables,
                      old(store.table), t,
                      sent);
            return true, n, ending, done, tables;
          }
          ItemAccounted(script, i - 1, id, store.cast, store.machine, heads, disk, weather, done, tables,
                        old(store.table), t,
                        sent, Done(path, code, beats), store.table);
          sent := sent + [Claim(path, id), Result(path, code, id)];
          BeatSumSnoc(done, Done(path, code, beats));
          done, tables := done + [Done(path, code, beats)], tables + [store.table];
          if !reported {
            ending := AtResult;
            AllAccounted(script, i, id, store.cast, store.machine, heads, disk, weather, done, tables, old(store.table),
                         store.table, sent);
            return true, n, ending, done, tables;
          }
          handled := handled + 1;
        } else {
          TickAccounted(script, i - 1, id, store.cast, store.machine, heads, disk, weather, done, tables,
                        old(store.table),
                        store.table, sent);
          if msg.None? {
            Beat();
            DeliveredSplit(lost, seq0, hb, hbSeq);
          } else if msg.value.Stop? {
            halted, ending := true, Stopped;
          }
        }
      }
      TicksEnd(script, i, idle, halted);
      AllAccounted(script, i, id, store.cast, store.machine, heads, disk, weather, done, tables, old(store.table),
                   store.table,
                   sent);
      if halted {
        AllSent(room, results0, sent, results);
      } else {
        ghost var before := results;
        var ok := Send(Bye(id));
        OneSent(room, results0, sent, before, Bye(id), ok);
        threw := !ok;
      }
    }
  }

  // After i ticks: the paths served are those of the items done, each of them
  // claimed and reported, and the tables follow from one to the next.
  ghost predicate Accounted(script: seq<Option<WorkMsg>>, i: nat, id: WorkerId, cast: Cast, machine: string, heads: nat,
                            disk: Disk, weather: nat -> Weather, done: seq<Done>, tables: seq<Table>, first: Table,
                            last: Table, sent: seq<Frame>)
    requires forall p :: Openable(disk(p), heads)
  {
    && PathsServed(script, i) == PathsDone(done)
    && sent == Report(done, id)
    && |tables| == |done| + 1 && tables[0] == first && tables[|done|] == last
    && ItemsDone(cast, machine, heads, disk, weather, done, tables)
  }

  lemma AllAccounted(script: seq<Option<WorkMsg>>, i: nat, id: WorkerId, cast: Cast, machine: string, heads: nat,
                     disk: Disk, weather: nat -> Weather, done: seq<Done>, tables: seq<Table>, first: Table,
                         last: Table, sent: seq<Frame>)
    requires forall p :: Openable(disk(p), heads)
    requires Accounted(script, i, id, cast, machine, heads, disk, weather, done, tables, first, last, sent)
    ensures PathsServed(script, i) == PathsDone(done) + [] && sent == Report(done, id) == Report(done, id) + []
    ensures |tables| == |done| + 1 && tables[0] == first && tables[|done|] == last
    ensures ItemsDone(cast, machine, heads, disk, weather, done, tables)
  {
    hide ItemsDone, PathsDone, PathsServed, Report;
  }

  lemma ItemTaken(script: seq<Option<WorkMsg>>, i: nat, id: WorkerId, cast: Cast, machine: string, heads: nat,
                  disk: Disk, weather: nat -> Weather, done: seq<Done>, tables: seq<Table>, first: Table, last: Table,
                      sent: seq<Frame>)
    requires forall p :: Openable(disk(p), heads)
    requires Accounted(script, i, id, cast, machine, heads, disk, weather, done, tables, first, last, sent)
    requires var m := Tick(script, i); m.Some? && m.value.Work?
    ensures PathsServed(script, i + 1) == PathsDone(done) + [Tick(script, i).value.path]
    ensures sent == Report(done, id)
    ensures |tables| == |done| + 1 && tables[0] == first && tables[|done|] == last
    ensures ItemsDone(cast, machine, heads, disk, weather, done, tables)
  {
    hide ItemsDone, Report;
  }

  lemma TickAccounted(script: seq<Option<WorkMsg>>, i: nat, id: WorkerId, cast: Cast, machine: string, heads: nat,
                      disk: Disk, weather: nat -> Weather, done: seq<Done>, tables: seq<Table>, first: Table,
                          last: Table, sent: seq<Frame>)
    requires forall p :: Openable(disk(p), heads)
    requires Accounted(script, i, id, cast, machine, heads, disk, weather, done, tables, first, last, sent)
    requires var m := Tick(script, i); !(m.Some? && m.value.Work?)
    ensures Accounted(script, i + 1, id, cast, machine, heads, disk, weather, done, tables, first, last, sent)
  {
    hide ItemsDone, Report;
  }

  lemma ItemAccounted(script: seq<Option<WorkMsg>>, i: nat, id: WorkerId, cast: Cast, machine: string, heads: nat,
                      disk: Disk, weather: nat -> Weather, done: seq<Done>, tables: seq<Table>, first: Table,
                      last: Table, sent: seq<Frame>, d: Done, u: Table)
    requires forall p :: Openable(disk(p), heads)
    requires Accounted(script, i, id, cast, machine, heads, disk, weather, done, tables, first, last, sent)
    requires var m := Tick(script, i);
             && m.Some? && m == Some(Work(d.path))
             && ItemDone(cast, machine, heads, disk(d.path), weather(|done|), last, d, u)
    ensures Accounted(script, i + 1, id, cast, machine, heads, disk, weather, done + [d], tables + [u], first, u,
                      sent + [Claim(d.path, id), Result(d.path, d.code, id)])
  {
    assert PathsDone(done + [d]) == PathsDone(done) + [d.path];
    hide ItemsDone, ItemDone, Report, PathsDone, Openable;
    ReportSnoc(done, d, id);
    ItemsDoneSnoc(cast, machine, heads, disk, weather, done, tables, d, u);
  }

  lemma BeatSumNone()
    ensures BeatSum([]) == 0
  {
  }

  lemma BeatSumSnoc(done: seq<Done>, d: Done)
    ensures BeatSum(done + [d]) == BeatSum(done) + d.beats
  {
    assert (done + [d])[..|done|] == done;
  }

  lemma EmptiesStep(script: seq<Option<WorkMsg>>, i: nat)
    ensures Empties(script, i + 1) == Empties(script, i) + (if Tick(script, i).None? then 1 else 0)
  {
  }

  function PathsDone(done: seq<Done>): seq<Path> {
    seq(|done|, i requires 0 <= i < |done| => done[i].path)
  }

  lemma NothingServed(script: seq<Option<WorkMsg>>, id: WorkerId, cast: Cast, machine: string, heads: nat, disk: Disk,
                      weather: nat -> Weather, t: Table)
    requires forall p :: Openable(disk(p), heads)
    ensures Empties(script, 0) == 0 && Ticking(script, 0, 0, false)
    ensures Accounted(script, 0, id, cast, machine, heads, disk, weather, [], [t], t, t, [])
  {
  }

  lemma DeliveredNone(lost: nat -> bool, a: nat)
    ensures Delivered(lost, a, a) == []
  {
  }

  lemma ReportSnoc(done: seq<Done>, d: Done, id: WorkerId)
    ensures Report(done + [d], id) == Report(done, id) + [Claim(d.path, id), Result(d.path, d.code, id)]
  {
    assert (done + [d])[..|done|] == done;
  }

  lemma ItemsDoneSnoc(cast: Cast, machine: string, heads: nat, disk: Disk, weather: nat -> Weather, done: seq<Done>,
                      tables: seq<Table>, d: Done, u: Table)
    requires forall p :: Openable(disk(p), heads)
    requires |tables| == |done| + 1 && ItemsDone(cast, machine, heads, disk, weather, done, tables)
    requires ItemDone(cast, machine, heads, disk(d.path), weather(|done|), tables[|done|], d, u)
    ensures ItemsDone(cast, machine, heads, disk, weather, done + [d], tables + [u])
  {
    hide ItemDone;
    var more, after := done + [d], tables + [u];
    forall i | 0 <= i < |more|
      ensures ItemDone(cast, machine, heads, disk(more[i].path), weather(i), after[i], more[i], after[i + 1])
    {
      if i < |done| {
        assert more[i] == done[i] && after[i] == tables[i] && after[i + 1] == tables[i + 1];
      }
    }
  }
}
