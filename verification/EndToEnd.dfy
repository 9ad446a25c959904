// The end-to-end theorems: over every interleaving of coordinator, workers,
// crashes and zombies, what the summary credits is in the surviving stores.
module EndToEnd {
  import opened Protocol
  import opened CoordinatorSpec
  import opened CoordinatorLaws
  import opened CoordinatorPasses
  import opened CoordinatorRuns
  import opened CoordinatorEffects
  import opened Extractor
  import opened Store
  import opened System

  /******* The invariant of the whole system *******/

  ghost predicate CreditOk(world: World, procs: map<WorkerId, Proc>, e: Entry)
    requires Sound(world)
  {
    e.worker in procs && Backed(world, e.path, e.events, procs[e.worker].store)
  }

  ghost predicate CreditsOk(world: World, es: set<Entry>, procs: map<WorkerId, Proc>)
    requires Sound(world)
  {
    forall e :: e in es ==> CreditOk(world, procs, e)
  }

  // Who the coordinator believes to hold an item has claimed it and not reported.
  ghost predicate HoldersOwe(holder: map<Path, WorkerId>, procs: map<WorkerId, Proc>) {
    forall p :: p in holder ==> holder[p] in procs && procs[holder[p]].phase == Owes(p)
  }

  ghost predicate ProcsOk(world: World, procs: map<WorkerId, Proc>)
    requires Sound(world)
  {
    forall w :: w in procs ==> ProcOk(world, w, procs[w])
  }

  ghost predicate WrittenOff(c: Coord, ws: set<WorkerId>) {
    forall w :: w in ws ==> Tombstoned(c, w)
  }

  ghost predicate Accounted(s: Sys) {
    forall p :: s.taken[p] + s.bag[p] <= SentFor(s.coord.log, p)
  }

  ghost predicate Safe(world: World, cfg: Config, s: Sys)
    requires Sound(world)
  {
    && Running(s.coord, cfg)
    && ProcsOk(world, s.procs)
    && CreditsOk(world, Entries(s.coord.registry), s.procs)
    && (s.coord.open > 0 ==> HoldersOwe(s.coord.holder, s.procs) && Attended(s.coord))
    && WrittenOff(s.coord, s.unreadable)
    && Accounted(s)
  }

  /******* Every step keeps it *******/

  lemma CreditsGrow(world: World, es: set<Entry>, procs: map<WorkerId, Proc>, qrocs: map<WorkerId, Proc>)
    requires Sound(world) && CreditsOk(world, es, procs)
    requires forall w :: w in procs ==> w in qrocs && procs[w].store.Keys <= qrocs[w].store.Keys
    ensures CreditsOk(world, es, qrocs)
  {
    forall e | e in es ensures CreditOk(world, qrocs, e) {
      assert CreditOk(world, procs, e);
      PresentGrows(world, Stream(world, e.path), procs[e.worker].store, qrocs[e.worker].store);
    }
  }

  lemma WorkerStepKeeps(world: World, cfg: Config, start: int, s: Sys, a: Act, t: Sys)
    requires Sound(world) && Safe(world, cfg, s) && Step(world, cfg, start, s, a, t)
    requires !a.Turn? && !a.Lose? && !a.Corrupt?
    ensures Safe(world, cfg, t)
  {
    hide Running, ProcOk, ProcStep, CreditsOk, Attended, SentFor, Entries, Tombstoned;
    var w := a.w;
    ProcKeeps(world, w, a, s.procs[w], t.procs[w]);
    CreditsGrow(world, Entries(s.coord.registry), s.procs, t.procs);
    assert ProcsOk(world, t.procs);
    assert s.coord.open > 0 ==> HoldersOwe(t.coord.holder, t.procs);
    assert Accounted(t) by {
      forall p ensures t.taken[p] + t.bag[p] <= SentFor(t.coord.log, p) {
        assert s.taken[p] + s.bag[p] <= SentFor(s.coord.log, p);
      }
    }
  }

  // A goodbye never finds an outstanding claim.
  lemma ByeOwesNothing(world: World, cfg: Config, s: Sys, from: Option<WorkerId>, frame: Option<Frame>)
    requires Sound(world) && Safe(world, cfg, s) && s.coord.open > 0 && Sourced(s.procs, from, frame)
    ensures NoOutstandingBye(s.coord, frame)
  {
    if frame.Some? && frame.value.Bye? {
      var w := from.value;
      DeliverKeeps(world, w, s.procs[w]);
      hide Running, ProcOk, CreditsOk, Attended, Entries;
      assert frame.value == Bye(w) && s.procs[w].phase == Free;
    }
  }

  // Taking a frame leaves the stores alone.
  ghost function Taken(procs: map<WorkerId, Proc>, from: Option<WorkerId>): map<WorkerId, Proc>
    requires from.Some? ==> from.value in procs && procs[from.value].pipe != []
  {
    if from.Some? then procs[from.value := Deliver(procs[from.value])] else procs
  }

  lemma StoresAlone(procs: map<WorkerId, Proc>, from: Option<WorkerId>)
    requires from.Some? ==> from.value in procs && procs[from.value].pipe != []
    ensures forall w :: w in procs ==>
            w in Taken(procs, from) && procs[w].store.Keys <= Taken(procs, from)[w].store.Keys
  {
  }

  // What the frame in hand may credit is backed.
  lemma NewCreditsOk(world: World, s: Sys, from: Option<WorkerId>, inp: Input)
    requires Sound(world) && Sourced(s.procs, from, inp.frame) && ProcsOk(world, s.procs)
    ensures CreditsOk(world, MayCredit(s.coord, inp.frame), s.procs)
  {
    hide ProcOk, Backed, Touched;
    if from.Some? {
      DeliverKeeps(world, from.value, s.procs[from.value]);
    }
  }

  lemma CreditsJoin(world: World, es: set<Entry>, fs: set<Entry>, gs: set<Entry>, procs: map<WorkerId, Proc>)
    requires Sound(world) && CreditsOk(world, es, procs) && CreditsOk(world, fs, procs) && gs <= es + fs
    ensures CreditsOk(world, gs, procs)
  {
    hide CreditOk;
  }

  lemma CreditsAfter(world: World, cfg: Config, start: int, s: Sys, from: Option<WorkerId>, inp: Input)
    requires Sound(world) && Inv(s.coord, cfg) && Sourced(s.procs, from, inp.frame)
    requires ProcsOk(world, s.procs) && CreditsOk(world, Entries(s.coord.registry), s.procs)
    ensures CreditsOk(world, Entries(Pass(s.coord, cfg, start, inp).registry), Taken(s.procs, from))
  {
    hide Inv, Running, ProcsOk, Entries, Pass, CreditsOk, MayCredit, Taken;
    PassKeeps(s.coord, cfg, start, inp);
    NewCreditsOk(world, s, from, inp);
    var es := Entries(Pass(s.coord, cfg, start, inp).registry);
    CreditsJoin(world, Entries(s.coord.registry), MayCredit(s.coord, inp.frame), es, s.procs);
    StoresAlone(s.procs, from);
    CreditsGrow(world, es, s.procs, Taken(s.procs, from));
  }

  // A holder entry the frame does not concern stays owed.
  lemma FrameOwner(world: World, s: Sys, from: Option<WorkerId>, frame: Option<Frame>)
    requires Sound(world) && Sourced(s.procs, from, frame) && ProcsOk(world, s.procs)
    ensures match frame
            case None => from.None?
            case Some(Malformed) => from.None?
            case Some(f) => from == Some(f.worker) && Advance(s.procs[f.worker].phase, f) != Bad
  {
    hide ProcOk;
    if from.Some? {
      DeliverKeeps(world, from.value, s.procs[from.value]);
      hide Backed;
    }
  }

  lemma HoldersAfter(world: World, cfg: Config, start: int, s: Sys, from: Option<WorkerId>, inp: Input)
    requires Sound(world) && Inv(s.coord, cfg) && Sourced(s.procs, from, inp.frame)
    requires ProcsOk(world, s.procs) && HoldersOwe(s.coord.holder, s.procs)
    ensures HoldersOwe(Pass(s.coord, cfg, start, inp).holder, Taken(s.procs, from))
  {
    hide Inv, ProcsOk, Pass;
    PassHolder(s.coord, cfg, start, inp);
    FrameOwner(world, s, from, inp.frame);
    var d, procs := Pass(s.coord, cfg, start, inp), Taken(s.procs, from);
    forall p | p in d.holder ensures d.holder[p] in procs && procs[d.holder[p]].phase == Owes(p) {
      if p in s.coord.holder && s.coord.holder[p] == d.holder[p] {
        assert s.procs[d.holder[p]].phase == Owes(p);
      }
    }
  }

  lemma TurnKeeps(world: World, cfg: Config, start: int, s: Sys, from: Option<WorkerId>, inp: Input, t: Sys)
    requires Sound(world) && Safe(world, cfg, s) && Step(world, cfg, start, s, Turn(from, inp), t)
    ensures Safe(world, cfg, t)
  {
    ByeOwesNothing(world, cfg, s, from, inp.frame);
    assert Inv(s.coord, cfg) && HoldersOwe(s.coord.holder, s.procs) && Attended(s.coord);
    if from.Some? {
      DeliverKeeps(world, from.value, s.procs[from.value]);
    }
    hide Running, Inv, ProcOk, CreditsOk, HoldersOwe, Attended, Entries, Pass, Deliver, SentFor;
    PassKeeps(s.coord, cfg, start, inp);
    CreditsAfter(world, cfg, start, s, from, inp);
    HoldersAfter(world, cfg, start, s, from, inp);
    PassAttends(s.coord, cfg, start, inp);
    PassGone(s.coord, cfg, start, inp);
    assert WrittenOff(t.coord, t.unreadable);
    assert ProcsOk(world, t.procs) by { DeliveredOk(world, s.procs, from, t.procs); }
    assert Accounted(t) by {
      forall p ensures t.taken[p] + t.bag[p] <= SentFor(t.coord.log, p) {
        assert s.taken[p] + s.bag[p] <= SentFor(s.coord.log, p);
      }
    }
  }

  lemma DeliveredOk(world: World, procs: map<WorkerId, Proc>, from: Option<WorkerId>, qrocs: map<WorkerId, Proc>)
    requires Sound(world) && ProcsOk(world, procs)
    requires from.Some? ==> from.value in procs && procs[from.value].pipe != []
    requires qrocs == (if from.Some? then procs[from.value := Deliver(procs[from.value])] else procs)
    ensures ProcsOk(world, qrocs)
  {
    if from.Some? {
      DeliverKeeps(world, from.value, procs[from.value]);
    }
    hide ProcOk, Deliver;
  }

  lemma StepKeeps(world: World, cfg: Config, start: int, s: Sys, a: Act, t: Sys)
    requires Sound(world) && Safe(world, cfg, s) && Step(world, cfg, start, s, a, t)
    ensures Safe(world, cfg, t)
  {
    hide Safe, Pass, ProcStep, BagFed;
    match a
    case Turn(from, inp) => TurnKeeps(world, cfg, start, s, from, inp, t);
    case Lose(p) => LoseKeeps(world, cfg, s, p);
    case Corrupt(w) => CorruptKeeps(world, cfg, s, w);
    case _ => WorkerStepKeeps(world, cfg, start, s, a, t);
  }

  lemma CorruptKeeps(world: World, cfg: Config, s: Sys, w: WorkerId)
    requires Sound(world) && Safe(world, cfg, s) && Tombstoned(s.coord, w)
    ensures Safe(world, cfg, s.(unreadable := s.unreadable + {w}))
  {
    hide Running, ProcsOk, CreditsOk, HoldersOwe, Attended, Entries, SentFor, Tombstoned;
  }

  lemma LoseKeeps(world: World, cfg: Config, s: Sys, p: Path)
    requires Sound(world) && Safe(world, cfg, s) && p in s.bag
    ensures Safe(world, cfg, s.(bag := s.bag - multiset{p}))
  {
    hide Running, ProcsOk, CreditsOk, HoldersOwe, Attended, Entries, SentFor, WrittenOff;
    var t := s.(bag := s.bag - multiset{p});
    forall q ensures t.taken[q] + t.bag[q] <= SentFor(t.coord.log, q) {
      assert s.taken[q] + s.bag[q] <= SentFor(s.coord.log, q);
    }
  }

  lemma {:induction false} DispatchSent(c: Coord, items: seq<Path>)
    requires c.log.lastDeath == 0 && c.log.tick == 0 && c.log.lastSent.Keys == (set p | p in c.state)
    requires forall p :: p in c.log.lastSent ==> c.log.lastSent[p] == 0
    ensures var d := Dispatch(c, items);
            d.log.lastDeath == 0 && d.log.tick == 0 && c.log.lastSent.Keys <= d.log.lastSent.Keys
            && forall p :: p in d.log.lastSent ==> d.log.lastSent[p] == 0
  {
    if items != [] {
      DispatchSent(c, items[..|items| - 1]);
    }
  }

  lemma FreshShape(items: seq<Path>)
    ensures var c := Fresh(items);
            && c.state.Keys == c.log.lastSent.Keys == (set p | p in items)
            && c.log.lastDeath == c.log.tick == 0 && forall p :: p in c.log.lastSent ==> c.log.lastSent[p] == 0
  {
  }

  lemma DispatchReady(c: Coord, cfg: Config, items: seq<Path>)
    requires Inv(c, cfg) && c.state == Fresh(items).state && c.log == Fresh(items).log
    ensures var d := Dispatch(c, items);
            Running(d, cfg) && Attended(d) && d.holder == c.holder && d.registry == c.registry
            && d.state.Keys == set p | p in items
  {
    FreshShape(items);
    hide Inv, Dispatch, Fresh, Running, Attended, Open;
    DispatchInv(c, cfg, items);
    DispatchSent(c, items);
    InvBalanced(Dispatch(c, items), cfg);
    AttendedAtStart(Dispatch(c, items));
  }

  lemma AttendedAtStart(c: Coord)
    requires c.log.lastDeath == c.log.tick == 0 && c.state.Keys <= c.log.lastSent.Keys
    requires forall p :: p in c.log.lastSent ==> c.log.lastSent[p] == 0
    ensures Attended(c)
  {
  }

  lemma InitSafe(world: World, cfg: Config, items: seq<Path>, s: Sys)
    requires Sound(world) && Init(world, cfg, items, s)
    ensures Safe(world, cfg, s) && s.coord.state.Keys == set p | p in items
  {
    hide Inv, Running, Entries, Dispatch, SentFor, ProcOk, ProcStarts, Attended, Fresh;
    var c :| Inv(c, cfg) && c.state == Fresh(items).state && c.holder == map[] && Entries(c.registry) == {}
             && c.log == Fresh(items).log && s.coord == Dispatch(c, items);
    DispatchReady(c, cfg, items);
    forall w | w in s.procs ensures ProcOk(world, w, s.procs[w]) {
      ProcStartsOk(world, w, s.procs[w]);
    }
  }

  lemma ProcStartsOk(world: World, w: WorkerId, pr: Proc)
    requires Sound(world) && ProcStarts(world, w, pr)
    ensures ProcOk(world, w, pr)
  {
    hide AllFrom;
    assert PhaseAfter(pr.phase, []) == pr.phase;
    if pr.pipe == [Bye(w)] {
      assert pr.pipe[..0] == [];
      assert PhaseAfter(pr.phase, pr.pipe) == Advance(pr.phase, Bye(w));
    }
  }

  /******* Runs *******/

  ghost predicate IsRun(world: World, cfg: Config, start: int, items: seq<Path>, ss: seq<Sys>, acts: seq<Act>)
    requires Sound(world)
  {
    && |ss| == |acts| + 1 && Init(world, cfg, items, ss[0])
    && forall i :: 0 <= i < |acts| ==> Step(world, cfg, start, ss[i], acts[i], ss[i + 1])
  }

  lemma StepItems(world: World, cfg: Config, start: int, s: Sys, a: Act, t: Sys)
    requires Sound(world) && Step(world, cfg, start, s, a, t)
    ensures t.coord.state.Keys == s.coord.state.Keys
  {
    if a.Turn? {
      PassItems(s.coord, cfg, start, a.inp);
    }
    hide Pass, ProcStep;
  }

  // One initial frame went out for each time an item is listed, and no more.
  ghost predicate InitialFrames(c: Coord, items: seq<Path>) {
    forall p :: c.log.sent[Sent(p, Initial)] == multiset(items)[p]
  }

  lemma StepInitial(world: World, cfg: Config, start: int, items: seq<Path>, s: Sys, a: Act, t: Sys)
    requires Sound(world) && Step(world, cfg, start, s, a, t) && InitialFrames(s.coord, items)
    ensures InitialFrames(t.coord, items)
  {
    hide Pass, ProcStep, Sourced, BagFed;
    if a.Turn? {
      PassInitial(s.coord, cfg, start, a.inp);
    }
  }

  lemma InitInitial(world: World, cfg: Config, items: seq<Path>, s: Sys)
    requires Sound(world) && Init(world, cfg, items, s)
    ensures InitialFrames(s.coord, items)
  {
    hide Inv, Entries, Dispatch, SentFor, ProcStarts;
    var c :| Inv(c, cfg) && c.state == Fresh(items).state && c.holder == map[] && Entries(c.registry) == {}
             && c.log == Fresh(items).log && s.coord == Dispatch(c, items);
    forall p ensures s.coord.log.sent[Sent(p, Initial)] == multiset(items)[p] {
      DispatchInitial(c, items, p);
    }
  }

  lemma {:induction false} RunSafe(world: World, cfg: Config, start: int, items: seq<Path>, ss: seq<Sys>,
                                   acts: seq<Act>)
    requires Sound(world) && IsRun(world, cfg, start, items, ss, acts)
    ensures var s := ss[|acts|];
            Safe(world, cfg, s) && InitialFrames(s.coord, items) && s.coord.state.Keys == set p | p in items
    decreases |acts|
  {
    hide Safe, Step, Init, InitialFrames;
    if acts == [] {
      InitSafe(world, cfg, items, ss[0]);
      InitInitial(world, cfg, items, ss[0]);
    } else {
      var n := |acts| - 1;
      var a := acts[n];
      assert IsRun(world, cfg, start, items, ss[..n + 1], acts[..n]) by { Shorter(world, cfg, start, items, ss, acts); }
      RunSafe(world, cfg, start, items, ss[..n + 1], acts[..n]);
      StepKeeps(world, cfg, start, ss[n], a, ss[n + 1]);
      StepItems(world, cfg, start, ss[n], a, ss[n + 1]);
      StepInitial(world, cfg, start, items, ss[n], a, ss[n + 1]);
    }
  }

  lemma Shorter(world: World, cfg: Config, start: int, items: seq<Path>, ss: seq<Sys>, acts: seq<Act>)
    requires Sound(world) && IsRun(world, cfg, start, items, ss, acts) && acts != []
    ensures IsRun(world, cfg, start, items, ss[..|acts|], acts[..|acts| - 1])
  {
    hide Step, Init;
    var n := |acts| - 1;
    var fewer, less := ss[..n + 1], acts[..n];
    forall i | 0 <= i < n ensures Step(world, cfg, start, fewer[i], less[i], fewer[i + 1]) {
      assert fewer[i] == ss[i] && fewer[i + 1] == ss[i + 1] && less[i] == acts[i];
    }
  }

  /******* What the summary credits *******/

  // The events of the files of ps, counted once each.
  ghost function EventsOf(world: World, ps: set<Path>): int
    requires Sound(world)
  {
    if ps == {} then 0
    else
      var p :| p in ps;
      EventsOf(world, ps - {p}) + if p in world.disk then |Stream(world, p)| else 0
  }

  lemma {:induction false} EventsOfTake(world: World, ps: set<Path>, p: Path)
    requires Sound(world) && p in ps
    ensures EventsOf(world, ps) == EventsOf(world, ps - {p}) + if p in world.disk then |Stream(world, p)| else 0
    decreases |ps|
  {
    var q :| q in ps && EventsOf(world, ps) == EventsOf(world, ps - {q}) + if q in world.disk then |Stream(world, q)|
        else 0;
    if q != p {
      EventsOfTake(world, ps - {q}, p);
      EventsOfTake(world, ps - {p}, q);
      assert ps - {q} - {p} == ps - {p} - {q};
    }
  }

  lemma {:induction false} SumsCoincide(world: World, es: set<Entry>)
    requires Sound(world) && OneCreditEach(es)
    requires forall e :: e in es ==> e.path in world.disk && e.events == |Stream(world, e.path)|
    ensures EventSum(es) == EventsOf(world, PathsOf(es))
    decreases |es|
  {
    hide Stream;
    if es == {} {
      assert PathsOf(es) == {};
    } else {
      var e :| e in es;
      EventSumTake(es, e);
      SumsCoincide(world, es - {e});
      assert PathsOf(es - {e}) == PathsOf(es) - {e.path};
      assert e.path in PathsOf(es);
      EventsOfTake(world, PathsOf(es), e.path);
    }
  }

  // The files counted ok.
  ghost function OkFiles(s: Sys): set<Path> {
    PathsOf(Entries(s.coord.registry))
  }

  // The summary never overcounts: its event total is exactly the sum over the
  // distinct files it counts ok, and the two file counters cover every item.
  lemma SummaryIsExact(world: World, cfg: Config, start: int, items: seq<Path>, ss: seq<Sys>, acts: seq<Act>)
    requires Sound(world) && IsRun(world, cfg, start, items, ss, acts)
    ensures var s := ss[|acts|];
            && s.coord.sum.filesOk == |OkFiles(s)|
            && s.coord.sum.totalEvents == EventsOf(world, OkFiles(s))
            && OkFiles(s) <= world.disk.Keys
            && (s.coord.open == 0 ==> s.coord.sum.filesOk + s.coord.sum.filesFailed == |set p | p in items|)
  {
    var s := ss[|acts|];
    var es := Entries(s.coord.registry);
    RunSafe(world, cfg, start, items, ss, acts);
    assert |s.coord.state| == |s.coord.state.Keys|;
    hide IsRun, Entries, Inv, NoDuplicates, RegistryOk, ProcsOk, HoldersOwe, Attended, Stream, Present, OneCreditEach;
    assert Balanced(s.coord);
    PathsCount(es);
    forall e | e in es ensures e.path in world.disk && e.events == |Stream(world, e.path)| {
      assert CreditOk(world, s.procs, e);
    }
    SumsCoincide(world, es);
  }

  // A worker's store as a merge finds it.
  ghost function SourceOf(s: Sys, w: WorkerId): Source
    requires w in s.procs
  {
    if w in s.unreadable then Broken else Readable(s.procs[w].store)
  }

  // A merge of this run's stores that leaves out none of the workers that were
  // not tombstoned. Written-off stores may be among the sources, readable or not.
  ghost predicate MergesSurvivors(s: Sys, sources: seq<Source>) {
    && (forall w :: w in s.procs && !Tombstoned(s.coord, w) ==> SourceOf(s, w) in sources)
    && (forall t :: Readable(t) in sources ==> exists w :: w in s.procs && SourceOf(s, w) == Readable(t))
  }

  // Who holds the rows of a file counted ok.
  lemma CreditSurvives(world: World, cfg: Config, s: Sys, p: Path) returns (w: WorkerId)
    requires Sound(world) && Safe(world, cfg, s) && p in OkFiles(s)
    ensures p in world.disk && w in s.procs && !Tombstoned(s.coord, w) && w !in s.unreadable
    ensures Present(world, Stream(world, p), s.procs[w].store)
  {
    var e :| e in Entries(s.coord.registry) && e.path == p;
    w := e.worker;
    assert CreditOk(world, s.procs, e);
    EntriesMember(s.coord.registry, e);
    hide Entries, CreditsOk, ProcsOk, Stream, Present, Attended, HoldersOwe;
    assert RegistryOk(s.coord.registry);
  }

  lemma SurvivorMerged(s: Sys, w: WorkerId, sources: seq<Source>) returns (i: nat)
    requires MergesSurvivors(s, sources) && w in s.procs && !Tombstoned(s.coord, w) && w !in s.unreadable
    ensures i < |Tables(sources)| && Tables(sources)[i] == s.procs[w].store
  {
    assert SourceOf(s, w) in sources;
    TablesMember(sources, s.procs[w].store);
    hide Tables, MergesSurvivors;
    i :| 0 <= i < |Tables(sources)| && Tables(sources)[i] == s.procs[w].store;
  }

  // THE END-TO-END THEOREM. After any run, each file counted ok has all its rows
  // in the store of a worker `w` that was not tombstoned and whose store can be
  // read, and so in any merge of the surviving stores, in any order, with or
  // without the written-off ones.
  lemma CreditedFilesAreMerged(world: World, cfg: Config, start: int, items: seq<Path>, ss: seq<Sys>, acts: seq<Act>,
                               p: Path, base: Table, sources: seq<Source>, merged: Table)
    returns (w: WorkerId)
    requires Sound(world) && IsRun(world, cfg, start, items, ss, acts)
    requires p in OkFiles(ss[|acts|]) && MergesSurvivors(ss[|acts|], sources)
    requires IsUnion(base, Tables(sources), merged)
    ensures p in world.disk
    ensures var s := ss[|acts|];
            w in s.procs && !Tombstoned(s.coord, w) && w !in s.unreadable
                && Present(world, Stream(world, p), s.procs[w].store)
    ensures Present(world, Stream(world, p), merged)
    ensures FilesAgree(world) && AllFrom(world, base) ==>
              forall i :: 0 <= i < |Stream(world, p)| ==> Stored(world.cast, world.machine, Stream(world, p)[i], merged)
  {
    var s := ss[|acts|];
    RunSafe(world, cfg, start, items, ss, acts);
    hide *;
    w := CreditSurvives(world, cfg, s, p);
    var i := SurvivorMerged(s, w, sources);
    UnionCovers(base, Tables(sources), merged, i);
    PresentGrows(world, Stream(world, p), s.procs[w].store, merged);
    if FilesAgree(world) && AllFrom(world, base) {
      MergedFrom(world, cfg, s, base, sources, merged);
      RowsExact(world, p, merged);
    }
  }

  lemma UnionCovers(base: Table, tables: seq<Table>, merged: Table, i: nat)
    requires IsUnion(base, tables, merged) && i < |tables|
    ensures tables[i].Keys <= merged.Keys
  {
    forall k | k in tables[i] ensures k in merged {}
  }

  lemma MergedFrom(world: World, cfg: Config, s: Sys, base: Table, sources: seq<Source>, merged: Table)
    requires Sound(world) && Safe(world, cfg, s) && MergesSurvivors(s, sources)
    requires AllFrom(world, base) && IsUnion(base, Tables(sources), merged)
    ensures AllFrom(world, merged)
  {
    var tables := Tables(sources);
    hide Running, CreditsOk, HoldersOwe, Attended, Entries, From, InOrder, PipeOk, Progressed, Tables;
    forall k | k in merged ensures From(world, k, merged[k]) {
      if k !in base {
        var i :| 0 <= i < |tables| && k in tables[i] && merged[k] == tables[i][k];
        TablesMember(sources, tables[i]);
        var w :| w in s.procs && SourceOf(s, w) == Readable(tables[i]);
        assert ProcOk(world, w, s.procs[w]);
      }
    }
  }

  lemma RowsExact(world: World, p: Path, t: Table)
    requires Sound(world) && FilesAgree(world) && AllFrom(world, t) && p in world.disk
            && Present(world, Stream(world, p), t)
    ensures forall i :: 0 <= i < |Stream(world, p)| ==> Stored(world.cast, world.machine, Stream(world, p)[i], t)
  {
    forall i | 0 <= i < |Stream(world, p)| ensures Stored(world.cast, world.machine, Stream(world, p)[i], t) {
      var e := Stream(world, p)[i];
      assert Holds(world, e, t);
      var kr := Keyed(world.cast, world.machine, e);
      assert Accounts(world, e, kr.key, kr.row);
      assert From(world, kr.key, kr.row) && From(world, kr.key, t[kr.key]);
    }
  }

  /******* Progress and work bounds over runs *******/

  // No item is stranded: whenever the coordinator is at its loop head with work
  // left, each open item is held by a worker that has claimed it and not yet
  // reported, or its latest WORK frame is no older than the latest death.
  lemma NothingStranded(world: World, cfg: Config, start: int, items: seq<Path>, ss: seq<Sys>, acts: seq<Act>, p: Path)
    requires Sound(world) && IsRun(world, cfg, start, items, ss, acts)
    requires var s := ss[|acts|]; s.coord.open > 0 && p in Open(s.coord.state)
    ensures var s := ss[|acts|];
            || (p in s.coord.holder && s.coord.holder[p] in Live(s.coord.registry)
                && s.coord.holder[p] in s.procs && s.procs[s.coord.holder[p]].phase == Owes(p))
            || (p in s.coord.log.lastSent && s.coord.log.lastSent[p] >= s.coord.log.lastDeath)
  {
    RunSafe(world, cfg, start, items, ss, acts);
    hide IsRun, Core, Entries, ProcsOk, CreditsOk, Open, Live, Balanced;
  }

  // How often an item can be handed out, also by what is still queued when the
  // coordinator returns: once for each time it is listed, its own retry
  // budget, and one for each death, departure and stale claim.
  lemma CleaningsBounded(world: World, cfg: Config, start: int, items: seq<Path>, ss: seq<Sys>, acts: seq<Act>, p: Path)
    requires Sound(world) && IsRun(world, cfg, start, items, ss, acts)
    requires p in items
    ensures var s := ss[|acts|];
            s.taken[p] + s.bag[p] <= multiset(items)[p] + Cap(cfg)
                                     + |Gone(s.coord.registry, false)| + |Gone(s.coord.registry, true)|
                                         + s.coord.log.goneClaims[p]
  {
    RunSafe(world, cfg, start, items, ss, acts);
    var s := ss[|acts|];
    assert p in s.coord.state;
    hide IsRun, Entries, ProcsOk, CreditsOk, HoldersOwe, Attended, Gone, Resends, Running;
    ResendsBounded(s.coord, cfg, p);
    assert s.taken[p] + s.bag[p] <= SentFor(s.coord.log, p);
  }
}
