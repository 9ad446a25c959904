// The coordinator composed with its workers: FIFO result pipes, an anonymous
// work queue that may hand an item to anyone, one keyed store per worker,
// crashes, zombies and lost frames. Every interleaving is a run.
module System {
  import opened Protocol
  import opened CoordinatorSpec
  import opened CoordinatorLaws
  import opened CoordinatorRuns
  import opened Extractor
  import opened Store
  import opened Pipeline

  // What does not change during a run. A path that cannot be opened is not on disk.
  datatype World = World(machine: string, cast: Cast, heads: nat, disk: map<Path, seq<RawRow>>)

  ghost predicate Sound(world: World) {
    forall p :: p in world.disk ==> Shaped(world.disk[p], world.heads)
  }

  ghost function Stream(world: World, p: Path): seq<Event>
    requires Sound(world) && p in world.disk
  {
    Transitions(Cpp, world.disk[p], world.heads)
  }

  ghost function FileBatches(world: World, p: Path): seq<seq<Event>>
    requires Sound(world) && p in world.disk
  {
    Batches(world.disk[p], world.heads)
  }

  /******* Processes *******/

  datatype Pc = Idle | Cleaning(path: Path, next: nat) | Exited | Crashed

  // How far a worker's frames have got: nothing owed, a claim without its
  // result, a goodbye, or frames out of order.
  datatype Phase = Free | Owes(path: Path) | Left | Bad

  // `phase` is the history of the frames already delivered.
  datatype Proc = Proc(pc: Pc, pipe: seq<Frame>, phase: Phase, store: Table)

  datatype Sys = Sys(coord: Coord, procs: map<WorkerId, Proc>, bag: multiset<Path>, taken: multiset<Path>,
                     unreadable: set<WorkerId>)

  datatype Act =
    | Take(w: WorkerId, p: Path)            // pull a WORK frame, claim it
    | Write(w: WorkerId)                    // one batch into the store
    | Finish(w: WorkerId)                   // all batches written: report the count
    | Fail(w: WorkerId)                     // the file or the store failed: report -1 or -2
    | Leave(w: WorkerId)                    // idle exit, with a goodbye
    | Halt(w: WorkerId)                     // STOP, without one
    | Crash(w: WorkerId, kept: nat)         // dies; unsent frames beyond `kept` are lost
    | Lose(p: Path)                         // a queued WORK frame dies with its queue
    | Corrupt(w: WorkerId)                  // a written-off store becomes unreadable
    | Turn(from: Option<WorkerId>, inp: Input)   // one pass of the coordinator

  ghost predicate ProcStep(world: World, w: WorkerId, a: Act, pr: Proc, qr: Proc)
    requires Sound(world)
  {
    match a
    case Take(_, p) =>
      pr.pc.Idle? && qr == pr.(pc := Cleaning(p, 0), pipe := pr.pipe + [Claim(p, w)])
    case Write(_) =>
      && pr.pc.Cleaning? && pr.pc.path in world.disk
      && var bs := FileBatches(world, pr.pc.path);
         && pr.pc.next < |bs| && Castable(world.cast, bs[pr.pc.next])
         && qr == pr.(pc := Cleaning(pr.pc.path, pr.pc.next + 1),
                      store := InsertAll(pr.store, KeyedRows(world.cast, world.machine, bs[pr.pc.next])))
    case Finish(_) =>
      && pr.pc.Cleaning? && pr.pc.path in world.disk && pr.pc.next == |FileBatches(world, pr.pc.path)|
      && qr == pr.(pc := Idle, pipe := pr.pipe + [Result(pr.pc.path, |Concat(FileBatches(world, pr.pc.path))|, w)])
    case Fail(_) =>
      && pr.pc.Cleaning? && (pr.pc.path in world.disk ==> pr.pc.next < |FileBatches(world, pr.pc.path)|)
      && var code := if pr.pc.next > 0 then PARTIAL else UNREADABLE;
         qr == pr.(pc := Idle, pipe := pr.pipe + [Result(pr.pc.path, code, w)])
    case Leave(_) => pr.pc.Idle? && qr == pr.(pc := Exited, pipe := pr.pipe + [Bye(w)])
    case Halt(_) => pr.pc.Idle? && qr == pr.(pc := Exited)
    case Crash(_, kept) => kept <= |pr.pipe| && qr == pr.(pc := Crashed, pipe := pr.pipe[..kept])
    case _ => false
  }

  ghost function Advance(phase: Phase, f: Frame): Phase {
    match f
    case Claim(p, _) => if phase == Free then Owes(p) else Bad
    case Result(p, _, _) => if phase == Owes(p) then Free else Bad
    case Bye(_) => if phase == Free then Left else Bad
    case Malformed => Bad
  }

  ghost function Deliver(pr: Proc): Proc
    requires pr.pipe != []
  {
    pr.(pipe := pr.pipe[1..], phase := Advance(pr.phase, pr.pipe[0]))
  }

  // The frame of a pass is the head of some pipe, noise, or nothing.
  ghost predicate Sourced(procs: map<WorkerId, Proc>, from: Option<WorkerId>, frame: Option<Frame>) {
    match from
    case None => frame == None || frame == Some(Malformed)
    case Some(w) => w in procs && procs[w].pipe != [] && frame == Some(procs[w].pipe[0])
  }

  // WORK frames sent for p so far.
  ghost function SentFor(log: Log, p: Path): nat {
    log.sent[Sent(p, Initial)] + Resends(log, p)
  }

  ghost predicate BagFed(bag: multiset<Path>, before: Log, bag': multiset<Path>, after: Log) {
    forall p :: bag'[p] + SentFor(before, p) == bag[p] + SentFor(after, p)
  }

  ghost predicate Step(world: World, cfg: Config, start: int, s: Sys, a: Act, t: Sys)
    requires Sound(world)
  {
    match a
    case Turn(from, inp) =>
      && s.coord.open > 0 && Sourced(s.procs, from, inp.frame)
      && t.coord == Pass(s.coord, cfg, start, inp)
      && t.procs == (if from.Some? then s.procs[from.value := Deliver(s.procs[from.value])] else s.procs)
      && BagFed(s.bag, s.coord.log, t.bag, t.coord.log)
      && t.taken == s.taken && t.unreadable == s.unreadable
    case Lose(p) => p in s.bag && t == s.(bag := s.bag - multiset{p})
    case Corrupt(w) => Tombstoned(s.coord, w) && t == s.(unreadable := s.unreadable + {w})
    case _ =>
      && a.w in s.procs && a.w in t.procs && ProcStep(world, a.w, a, s.procs[a.w], t.procs[a.w])
      && (a.Take? ==> a.p in s.bag)
      && t == s.(procs := s.procs[a.w := t.procs[a.w]],
                 bag := if a.Take? then s.bag - multiset{a.p} else s.bag,
                 taken := if a.Take? then s.taken + multiset{a.p} else s.taken)
  }

  // After the gate and the initial dispatch: workers may have registered, left
  // or died meanwhile, but no item has been handed out yet.
  ghost predicate Init(world: World, cfg: Config, items: seq<Path>, s: Sys)
    requires Sound(world)
  {
    && (exists c :: Inv(c, cfg) && c.state == Fresh(items).state && c.holder == map[] && Entries(c.registry) == {}
                    && c.log == Fresh(items).log && s.coord == Dispatch(c, items))
    && (forall w :: w in s.procs ==> ProcStarts(world, w, s.procs[w]))
    && s.unreadable == {} && s.taken == multiset{}
    && forall p :: s.bag[p] == SentFor(s.coord.log, p)
  }

  ghost predicate ProcStarts(world: World, w: WorkerId, pr: Proc)
    requires Sound(world)
  {
    && AllFrom(world, pr.store)
    && match pr.pc
       case Idle => pr.pipe == [] && pr.phase == Free
       case Cleaning(_, _) => false
       case Exited => (pr.pipe == [] && pr.phase in {Free, Left}) || (pr.pipe == [Bye(w)] && pr.phase == Free)
       case Crashed => pr.pipe == [] && pr.phase in {Free, Left}
  }

  /******* What a store holds *******/

  ghost predicate Holds(world: World, e: Event, t: Table) {
    world.cast(e.ts).Some? && Key(world.machine, e.head, world.cast(e.ts).value) in t
  }

  // Every event of the list can be stored and its key is in the table.
  ghost predicate Present(world: World, es: seq<Event>, t: Table) {
    forall i :: 0 <= i < |es| ==> Holds(world, es[i], t)
  }

  // A row some file on disk accounts for.
  ghost predicate From(world: World, k: Key, row: Row)
    requires Sound(world)
  {
    exists p, i :: p in world.disk && 0 <= i < |Stream(world, p)| && Accounts(world, Stream(world, p)[i], k, row)
  }

  ghost predicate Accounts(world: World, e: Event, k: Key, row: Row) {
    world.cast(e.ts) == Some(k.ts) && k == Key(world.machine, e.head, k.ts) && Shows(row, e)
  }

  ghost predicate AllFrom(world: World, t: Table)
    requires Sound(world)
  {
    forall k :: k in t ==> From(world, k, t[k])
  }

  // The files name each observation consistently.
  ghost predicate FilesAgree(world: World)
    requires Sound(world)
  {
    forall k, a, b :: From(world, k, a) && From(world, k, b) ==> a == b
  }

  lemma PresentGrows(world: World, es: seq<Event>, t: Table, u: Table)
    requires Present(world, es, t) && t.Keys <= u.Keys
    ensures Present(world, es, u)
  {
    forall i | 0 <= i < |es| ensures Holds(world, es[i], u) { assert Holds(world, es[i], t); }
  }

  lemma WrittenPresent(world: World, es: seq<Event>, batch: seq<Event>, t: Table)
    requires Present(world, es, t) && Castable(world.cast, batch)
    ensures Present(world, es + batch, InsertAll(t, KeyedRows(world.cast, world.machine, batch)))
    ensures t.Keys <= InsertAll(t, KeyedRows(world.cast, world.machine, batch)).Keys
  {
    var rows := KeyedRows(world.cast, world.machine, batch);
    var u := InsertAll(t, rows);
    InsertKeys(t, rows);
    PresentGrows(world, es, t, u);
    forall i | 0 <= i < |es + batch| ensures Holds(world, (es + batch)[i], u) {
      if i >= |es| {
        assert rows[i - |es|] in rows && rows[i - |es|].key in KeysOf(rows);
      } else {
        assert Holds(world, es[i], u);
      }
    }
  }

  lemma {:induction false} InsertedFrom(world: World, p: Path, batch: seq<Event>, t: Table)
    requires Sound(world) && p in world.disk && AllFrom(world, t) && Castable(world.cast, batch)
    requires forall e :: e in batch ==> e in Stream(world, p)
    ensures AllFrom(world, InsertAll(t, KeyedRows(world.cast, world.machine, batch)))
  {
    if batch != [] {
      var n := |batch| - 1;
      var rows := KeyedRows(world.cast, world.machine, batch);
      InsertedFrom(world, p, batch[..n], t);
      assert rows[..n] == KeyedRows(world.cast, world.machine, batch[..n]);
      assert batch[n] in Stream(world, p);
      var i :| 0 <= i < |Stream(world, p)| && Stream(world, p)[i] == batch[n];
      assert Accounts(world, Stream(world, p)[i], rows[n].key, rows[n].row);
      hide Stream, KeyedRows;
    }
  }

  lemma {:induction false} InConcat(bs: seq<seq<Event>>, k: nat, e: Event)
    requires k < |bs| && e in bs[k]
    ensures e in Concat(bs)
  {
    if k < |bs| - 1 {
      InConcat(bs[..|bs| - 1], k, e);
    }
  }

  // What is written of a file is part of its stream.
  lemma BatchOfStream(world: World, p: Path, k: nat)
    requires Sound(world) && p in world.disk && k < |FileBatches(world, p)|
    ensures forall e :: e in FileBatches(world, p)[k] ==> e in Stream(world, p)
  {
    BatchesLaw(world.disk[p], world.heads);
    var bs := FileBatches(world, p);
    hide Batches, Concat, Transitions;
    forall e | e in bs[k] ensures e in Stream(world, p) { InConcat(bs, k, e); }
  }

  lemma WholeStream(world: World, p: Path)
    requires Sound(world) && p in world.disk
    ensures Concat(FileBatches(world, p)) == Stream(world, p)
  {
    BatchesLaw(world.disk[p], world.heads);
  }

  /******* What every run keeps, worker by worker *******/

  ghost function PhaseAfter(phase: Phase, pipe: seq<Frame>): Phase {
    if pipe == [] then phase else Advance(PhaseAfter(phase, pipe[..|pipe| - 1]), pipe[|pipe| - 1])
  }

  // Claims, results and the goodbye of a worker come in order.
  ghost predicate InOrder(pr: Proc) {
    var last := PhaseAfter(pr.phase, pr.pipe);
    match pr.pc
    case Idle => last == Free
    case Cleaning(p, _) => last == Owes(p)
    case Exited => last == Free || last == Left
    case Crashed => last != Bad
  }

  // A count a worker has reported, or is about to, is backed by its store.
  ghost predicate Backed(world: World, p: Path, n: int, t: Table)
    requires Sound(world)
  {
    p in world.disk && n == |Stream(world, p)| && Present(world, Stream(world, p), t)
  }

  ghost predicate FrameOk(world: World, w: WorkerId, f: Frame, t: Table)
    requires Sound(world)
  {
    match f
    case Claim(_, v) => v == w
    case Result(p, n, v) => v == w && (n >= 0 ==> Backed(world, p, n, t))
    case Bye(v) => v == w
    case Malformed => false
  }

  ghost predicate PipeOk(world: World, w: WorkerId, pipe: seq<Frame>, t: Table)
    requires Sound(world)
  {
    forall i :: 0 <= i < |pipe| ==> FrameOk(world, w, pipe[i], t)
  }

  ghost predicate Progressed(world: World, pc: Pc, t: Table)
    requires Sound(world)
  {
    pc.Cleaning? ==>
      && (pc.path !in world.disk ==> pc.next == 0)
      && (pc.path in world.disk ==>
            && pc.next <= |FileBatches(world, pc.path)|
            && Present(world, Concat(FileBatches(world, pc.path)[..pc.next]), t))
  }

  ghost predicate ProcOk(world: World, w: WorkerId, pr: Proc)
    requires Sound(world)
  {
    && AllFrom(world, pr.store)
    && InOrder(pr)
    && PipeOk(world, w, pr.pipe, pr.store)
    && Progressed(world, pr.pc, pr.store)
  }

  lemma PhaseSnoc(phase: Phase, pipe: seq<Frame>, f: Frame)
    ensures PhaseAfter(phase, pipe + [f]) == Advance(PhaseAfter(phase, pipe), f)
  {
    assert (pipe + [f])[..|pipe|] == pipe;
  }

  lemma {:induction false} PhaseDeliver(phase: Phase, pipe: seq<Frame>)
    requires pipe != []
    ensures PhaseAfter(phase, pipe) == PhaseAfter(Advance(phase, pipe[0]), pipe[1..])
  {
    var n := |pipe| - 1;
    if n == 0 {
      assert pipe[..0] == [];
    } else {
      PhaseDeliver(phase, pipe[..n]);
      assert pipe[..n][1..] == pipe[1..][..n - 1];
    }
  }

  lemma {:induction false} PhaseOfPrefix(phase: Phase, pipe: seq<Frame>, k: nat)
    requires k <= |pipe| && PhaseAfter(phase, pipe) != Bad
    ensures PhaseAfter(phase, pipe[..k]) != Bad
  {
    if k == |pipe| {
      assert pipe[..k] == pipe;
    } else {
      PhaseOfPrefix(phase, pipe[..|pipe| - 1], k);
      assert pipe[..|pipe| - 1][..k] == pipe[..k];
    }
  }

  lemma FrameGrows(world: World, w: WorkerId, f: Frame, t: Table, u: Table)
    requires Sound(world) && FrameOk(world, w, f, t) && t.Keys <= u.Keys
    ensures FrameOk(world, w, f, u)
  {
    if f.Result? && f.events >= 0 {
      PresentGrows(world, Stream(world, f.path), t, u);
    }
  }

  lemma PipeGrows(world: World, w: WorkerId, pipe: seq<Frame>, t: Table, u: Table)
    requires Sound(world) && PipeOk(world, w, pipe, t) && t.Keys <= u.Keys
    ensures PipeOk(world, w, pipe, u)
  {
    forall i | 0 <= i < |pipe| ensures FrameOk(world, w, pipe[i], u) { FrameGrows(world, w, pipe[i], t, u); }
  }

  lemma PipeSnoc(world: World, w: WorkerId, pipe: seq<Frame>, f: Frame, t: Table)
    requires Sound(world) && PipeOk(world, w, pipe, t) && FrameOk(world, w, f, t)
    ensures PipeOk(world, w, pipe + [f], t)
  {
    hide FrameOk;
  }

  lemma ConcatNext(bs: seq<seq<Event>>, k: nat)
    requires k < |bs|
    ensures Concat(bs[..k + 1]) == Concat(bs[..k]) + bs[k]
  {
    assert bs[..k + 1] == bs[..k] + [bs[k]];
    ConcatSnoc(bs[..k], bs[k]);
  }

  lemma WriteKeeps(world: World, w: WorkerId, pr: Proc, qr: Proc)
    requires Sound(world) && ProcOk(world, w, pr) && ProcStep(world, w, Write(w), pr, qr)
    ensures ProcOk(world, w, qr) && pr.store.Keys <= qr.store.Keys
  {
    hide Sound, Stream, FileBatches, Present, AllFrom, PipeOk, PhaseAfter, Concat, Castable, KeyedRows, InsertAll;
    var p, k := pr.pc.path, pr.pc.next;
    var bs := FileBatches(world, p);
    BatchOfStream(world, p, k);
    InsertedFrom(world, p, bs[k], pr.store);
    WrittenPresent(world, Concat(bs[..k]), bs[k], pr.store);
    ConcatNext(bs, k);
    PipeGrows(world, w, pr.pipe, pr.store, qr.store);
  }

  lemma FinishKeeps(world: World, w: WorkerId, pr: Proc, qr: Proc)
    requires Sound(world) && ProcOk(world, w, pr) && ProcStep(world, w, Finish(w), pr, qr)
    ensures ProcOk(world, w, qr)
  {
    var p := pr.pc.path;
    var bs := FileBatches(world, p);
    hide Stream, FileBatches, Present, AllFrom, PipeOk, PhaseAfter, Concat;
    assert bs[..|bs|] == bs;
    WholeStream(world, p);
    var f := Result(p, |Concat(bs)|, w);
    assert FrameOk(world, w, f, pr.store);
    PipeSnoc(world, w, pr.pipe, f, pr.store);
    PhaseSnoc(pr.phase, pr.pipe, f);
  }

  lemma CrashKeeps(world: World, w: WorkerId, pr: Proc, kept: nat)
    requires Sound(world) && ProcOk(world, w, pr) && kept <= |pr.pipe|
    ensures ProcOk(world, w, pr.(pc := Crashed, pipe := pr.pipe[..kept]))
  {
    hide Stream, FileBatches, Present, AllFrom, PhaseAfter, Concat, FrameOk;
    PhaseOfPrefix(pr.phase, pr.pipe, kept);
  }

  lemma ProcKeeps(world: World, w: WorkerId, a: Act, pr: Proc, qr: Proc)
    requires Sound(world) && ProcOk(world, w, pr) && ProcStep(world, w, a, pr, qr)
    ensures ProcOk(world, w, qr) && qr.phase == pr.phase && pr.store.Keys <= qr.store.Keys
  {
    match a
    case Write(_) => WriteKeeps(world, w, pr, qr);
    case Finish(_) => FinishKeeps(world, w, pr, qr);
    case Crash(_, kept) => CrashKeeps(world, w, pr, kept);
    case Halt(_) =>
    case Take(_, p) => ClaimKeeps(world, w, pr, p);
    case Fail(_) => FailKeeps(world, w, pr, qr);
    case Leave(_) => LeaveKeeps(world, w, pr);
    hide PipeOk, AllFrom, PhaseAfter, Concat;
  }

  lemma ClaimKeeps(world: World, w: WorkerId, pr: Proc, p: Path)
    requires Sound(world) && ProcOk(world, w, pr) && pr.pc.Idle?
    ensures ProcOk(world, w, pr.(pc := Cleaning(p, 0), pipe := pr.pipe + [Claim(p, w)]))
  {
    hide Stream, FileBatches, AllFrom, PipeOk, PhaseAfter;
    PipeSnoc(world, w, pr.pipe, Claim(p, w), pr.store);
    PhaseSnoc(pr.phase, pr.pipe, Claim(p, w));
    assert Concat([]) == [];
    if p in world.disk { assert FileBatches(world, p)[..0] == []; }
  }

  lemma FailKeeps(world: World, w: WorkerId, pr: Proc, qr: Proc)
    requires Sound(world) && ProcOk(world, w, pr) && ProcStep(world, w, Fail(w), pr, qr)
    ensures ProcOk(world, w, qr)
  {
    hide Stream, FileBatches, Present, AllFrom, PipeOk, PhaseAfter, Concat;
    var f := Result(pr.pc.path, if pr.pc.next > 0 then PARTIAL else UNREADABLE, w);
    PipeSnoc(world, w, pr.pipe, f, pr.store);
    PhaseSnoc(pr.phase, pr.pipe, f);
  }

  lemma LeaveKeeps(world: World, w: WorkerId, pr: Proc)
    requires Sound(world) && ProcOk(world, w, pr) && pr.pc.Idle?
    ensures ProcOk(world, w, pr.(pc := Exited, pipe := pr.pipe + [Bye(w)]))
  {
    hide Stream, FileBatches, Present, AllFrom, PipeOk, PhaseAfter, Concat;
    PipeSnoc(world, w, pr.pipe, Bye(w), pr.store);
    PhaseSnoc(pr.phase, pr.pipe, Bye(w));
  }

  lemma DeliverKeeps(world: World, w: WorkerId, pr: Proc)
    requires Sound(world) && ProcOk(world, w, pr) && pr.pipe != []
    ensures ProcOk(world, w, Deliver(pr))
    ensures Advance(pr.phase, pr.pipe[0]) != Bad && FrameOk(world, w, pr.pipe[0], pr.store)
  {
    hide Stream, FileBatches, Present, AllFrom, PhaseAfter, Concat, FrameOk;
    PhaseDeliver(pr.phase, pr.pipe);
    HeadInOrder(pr);
  }

  lemma HeadInOrder(pr: Proc)
    requires InOrder(pr) && pr.pipe != []
    ensures Advance(pr.phase, pr.pipe[0]) != Bad
  {
    PhaseOfPrefix(pr.phase, pr.pipe, 1);
    assert pr.pipe[..1][..0] == [] && pr.pipe[..1][0] == pr.pipe[0];
  }
}
