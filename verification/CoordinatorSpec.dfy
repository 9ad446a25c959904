// The coordinator's state as a value, one function per thing the loop does to
// it, and the laws that every pass keeps. The class in Coordinator.dfy carries
// out the same steps by assignment and is proved against these functions.
module CoordinatorSpec {
  import opened Protocol

  datatype Item = Item(redispatches: nat, done: bool)

  datatype Completion = Completion(path: Path, events: int)

  // A departed worker announced its exit; a worker that is neither alive nor
  // departed is tombstoned and its store is written off.
  datatype Worker = Worker(lastSeen: int, alive: bool, departed: bool, completed: seq<Completion>)

  datatype Summary = Summary(totalEvents: int, filesOk: int, filesFailed: int, workersDied: int)

  datatype Config = Config(deathThreshold: int, redispatchCap: int, expectedWorkers: int, registrationTimeout: int)

  // Why a WORK frame went out.
  datatype Why = Initial | StoreFault | HolderDied | UnclaimedAtDeath | HolderDeparted | ClaimedByGone

  datatype Sent = Sent(path: Path, why: Why)

  // Instrumentation: what the transport saw. Nothing below reads it.
  datatype Log = Log(tick: nat, lastDeath: nat, deathPasses: nat, goneClaims: multiset<Path>,
                     lastSent: map<Path, nat>, sent: multiset<Sent>)

  datatype Coord = Coord(state: map<Path, Item>, registry: map<WorkerId, Worker>, holder: map<Path, WorkerId>,
                         open: int, sum: Summary, log: Log)

  /******* Views *******/

  ghost function Open(state: map<Path, Item>): set<Path> {
    set p | p in state && !state[p].done
  }

  ghost function Live(registry: map<WorkerId, Worker>): set<WorkerId> {
    set w | w in registry && registry[w].alive
  }

  ghost predicate Tombstoned(c: Coord, w: WorkerId) {
    w in c.registry && !c.registry[w].alive && !c.registry[w].departed
  }

  // One credited result: who holds the rows of which file, and how many events.
  datatype Entry = Entry(worker: WorkerId, path: Path, events: int)

  ghost function EntriesOf(registry: map<WorkerId, Worker>, ws: set<WorkerId>): set<Entry> {
    set w, k | w in ws && w in registry && k in registry[w].completed :: Entry(w, k.path, k.events)
  }

  ghost function Entries(registry: map<WorkerId, Worker>): set<Entry> {
    EntriesOf(registry, registry.Keys)
  }

  ghost function PathsOf(es: set<Entry>): set<Path> {
    set e | e in es :: e.path
  }

  ghost function EventSum(es: set<Entry>): int {
    if es == {} then 0 else var e :| e in es; e.events + EventSum(es - {e})
  }

  /******* Atomic effects *******/

  // Mark every item of ps failed. Callers pass open items only.
  ghost function SettleAll(c: Coord, ps: set<Path>): Coord {
    c.(state := map p | p in c.state :: if p in ps then c.state[p].(done := true) else c.state[p],
       open := c.open - |ps|,
       sum := c.sum.(filesFailed := c.sum.filesFailed + |ps|))
  }

  ghost function Frames(ps: set<Path>, why: Why): multiset<Sent> {
    multiset(set p | p in ps :: Sent(p, why))
  }

  ghost function SendAll(c: Coord, ps: set<Path>, why: Why): Coord {
    c.(log := c.log.(
       lastSent := map p | p in c.log.lastSent.Keys + ps :: if p in ps then c.log.tick else c.log.lastSent[p],
       sent := c.log.sent + Frames(ps, why)))
  }

  // Best-effort re-dispatch of every item of ps: an item whose send is rejected
  // is settled as failed, the others have one more WORK frame on the wire.
  ghost function RedispatchAll(c: Coord, ps: set<Path>, why: Why, rejects: set<Path>): Coord {
    SendAll(SettleAll(c, ps * rejects), ps - rejects, why)
  }

  ghost function ChargeAll(c: Coord, ps: set<Path>): Coord {
    c.(state := map p | p in c.state :: if p in ps then c.state[p].(redispatches := c.state[p].redispatches + 1)
       else c.state[p])
  }

  // The rows of these results lived only in written-off stores.
  ghost function Reopen(c: Coord, es: set<Entry>): Coord {
    c.(state := map p | p in c.state :: if p in PathsOf(es) then c.state[p].(done := false) else c.state[p],
       open := c.open + |es|,
       sum := c.sum.(filesOk := c.sum.filesOk - |es|, totalEvents := c.sum.totalEvents - EventSum(es)))
  }

  ghost function Credit(c: Coord, p: Path, n: int, w: WorkerId): Coord
    requires p in c.state && w in c.registry
  {
    c.(state := c.state[p := c.state[p].(done := true)],
       registry := c.registry[w := c.registry[w].(completed := c.registry[w].completed + [Completion(p, n)])],
       open := c.open - 1,
       sum := c.sum.(filesOk := c.sum.filesOk + 1, totalEvents := c.sum.totalEvents + n))
  }

  /******* The parts of a pass *******/

  // Any sign of life registers a newcomer or refreshes a live worker. A worker
  // that is gone stays gone: Touched is false for it and nothing changes.
  ghost predicate Touched(c: Coord, w: WorkerId) {
    w in c.registry ==> c.registry[w].alive
  }

  ghost function Touch(c: Coord, w: WorkerId, now: int): Coord {
    if w !in c.registry then c.(registry := c.registry[w := Worker(now, true, false, [])])
    else if c.registry[w].alive then c.(registry := c.registry[w := c.registry[w].(lastSeen := now)])
    else c
  }

  ghost function HeldBy(c: Coord, w: WorkerId): set<Path> {
    set p | p in c.holder && c.holder[p] == w
  }

  ghost function MarkDeparted(c: Coord, w: WorkerId, rejects: set<Path>): Coord {
    if w !in c.registry || !c.registry[w].alive then c
    else
      var c1 := c.(registry := c.registry[w := c.registry[w].(alive := false, departed := true)],
                   holder := c.holder - HeldBy(c, w));
      if Live(c1.registry) == {} then c1
      else RedispatchAll(c1, HeldBy(c, w) * Open(c.state), HolderDeparted, rejects)
  }

  // What a live worker's result does to an open item that nobody holds any more.
  ghost function Outcome(c: Coord, cfg: Config, p: Path, n: int, w: WorkerId, rejects: set<Path>): Coord
    requires p in c.state && w in c.registry
  {
    if n == PARTIAL && c.state[p].redispatches < cfg.redispatchCap && Live(c.registry) != {} then
      RedispatchAll(ChargeAll(c, {p}), {p}, StoreFault, rejects)
    else if n >= 0 then Credit(c, p, n, w)
    else SettleAll(c, {p})
  }

  ghost function OnResult(c: Coord, cfg: Config, now: int, p: Path, n: int, w: WorkerId, rejects: set<Path>): Coord {
    var c1 := Touch(c, w, now);
    if !Touched(c, w) || p !in Open(c1.state) then c1
    else Outcome(c1.(holder := c1.holder - {p}), cfg, p, n, w, rejects)
  }

  ghost predicate HeldByLive(c: Coord, p: Path) {
    p in c.holder && c.holder[p] in c.registry && c.registry[c.holder[p]].alive
  }

  ghost function OnClaim(c: Coord, now: int, p: Path, w: WorkerId, rejects: set<Path>): Coord {
    if Touched(c, w) then
      var c1 := Touch(c, w, now);
      if p in Open(c1.state) then c1.(holder := c1.holder[p := w]) else c1
    else
      var c1 := c.(log := c.log.(goneClaims := c.log.goneClaims + multiset{p}));
      if p in Open(c.state) && !HeldByLive(c, p) && Live(c.registry) != {} then
        RedispatchAll(c1, {p}, ClaimedByGone, rejects)
      else c1
  }

  // (1) one lifecycle tick.
  ghost function Receive(c: Coord, cfg: Config, now: int, frame: Option<Frame>, rejects: set<Path>): Coord {
    match frame
    case None => c
    case Some(Result(p, n, w)) => OnResult(c, cfg, now, p, n, w, rejects)
    case Some(Claim(p, w)) => OnClaim(c, now, p, w, rejects)
    case Some(Bye(w)) => MarkDeparted(c, w, rejects)
    case Some(Malformed) => c
  }

  // A heartbeat frame: None when it does not decode.
  datatype Beat = Beat(worker: Option<WorkerId>, at: int)

  // (2) heartbeat drain.
  ghost function Drain(c: Coord, beats: seq<Beat>): Coord {
    if beats == [] then c
    else
      var b := beats[|beats| - 1];
      var c1 := Drain(c, beats[..|beats| - 1]);
      if b.worker.Some? then Touch(c1, b.worker.value, b.at) else c1
  }

  ghost function Silent(c: Coord, cfg: Config, t: int): set<WorkerId> {
    set w | w in c.registry && c.registry[w].alive && t - c.registry[w].lastSeen > cfg.deathThreshold
  }

  ghost function Bury(registry: map<WorkerId, Worker>, ws: set<WorkerId>): map<WorkerId, Worker> {
    map w | w in registry :: if w in ws then registry[w].(alive := false, completed := []) else registry[w]
  }

  // (3a) tombstone silent workers and reopen their completions.
  ghost function Tombstone(c: Coord, ws: set<WorkerId>): Coord {
    var c1 := Reopen(c, EntriesOf(c.registry, ws));
    c1.(registry := Bury(c.registry, ws), sum := c1.sum.(workersDied := c1.sum.workersDied + |ws|))
  }

  // (3b) re-dispatch by attribution, for the items of ps.
  ghost function Orphans(c: Coord, dead: set<WorkerId>, ps: set<Path>): set<Path> {
    set p | p in ps && p in c.state && !c.state[p].done && p in c.holder && c.holder[p] in dead
  }

  ghost function Unclaimed(c: Coord, ps: set<Path>): set<Path> {
    set p | p in ps && p in c.state && !c.state[p].done && p !in c.holder
  }

  ghost function Exhausted(c: Coord, cfg: Config, dead: set<WorkerId>, ps: set<Path>): set<Path> {
    set p | p in Orphans(c, dead, ps) && c.state[p].redispatches >= cfg.redispatchCap
  }

  ghost function Redistribute(c: Coord, cfg: Config, dead: set<WorkerId>, live: bool, rejects: set<Path>,
                              ps: set<Path>): Coord {
    var spent := Exhausted(c, cfg, dead, ps);
    var charged := Orphans(c, dead, ps) - spent;
    var free := Unclaimed(c, ps);
    var c1 := ChargeAll(SettleAll(c.(holder := c.holder - Orphans(c, dead, ps)), spent), charged);
    if !live then c1
    else RedispatchAll(RedispatchAll(c1, charged, HolderDied, rejects), free, UnclaimedAtDeath, rejects)
  }

  ghost function NoteDeaths(c: Coord, dead: set<WorkerId>): Coord {
    if dead == {} then c else c.(log := c.log.(lastDeath := c.log.tick, deathPasses := c.log.deathPasses + 1))
  }

  // (3) deadline sweep.
  ghost function Sweep(c: Coord, cfg: Config, t: int, rejects: set<Path>): Coord {
    var dead := Silent(c, cfg, t);
    var c1 := NoteDeaths(Tombstone(c, dead), dead);
    if dead == {} then c1
    else Redistribute(c1, cfg, dead, Live(c1.registry) != {}, rejects, c1.state.Keys)
  }

  // (4) abort: nobody to do the remaining work.
  ghost predicate Hopeless(c: Coord, cfg: Config, start: int, t: int) {
    c.open > 0 && ((Live(c.registry) == {} && c.registry != map[])
                   || (c.registry == map[] && t - start > cfg.deathThreshold))
  }

  ghost function Abort(c: Coord, cfg: Config, start: int, t: int): Coord {
    if Hopeless(c, cfg, start, t)
    then c.(open := 0, sum := c.sum.(filesFailed := c.sum.filesFailed + c.open))
    else c
  }

  // Everything one pass of the loop takes from its environment: at most one
  // lifecycle frame, any heartbeats, three clock readings, and the paths whose
  // re-send the work socket refuses during the tick and during the sweep.
  datatype Input = Input(frame: Option<Frame>, at: int, tickRejects: set<Path>,
                         beats: seq<Beat>, t: int, sweepRejects: set<Path>)

  ghost function Ticked(c: Coord): Coord {
    c.(log := c.log.(tick := c.log.tick + 1))
  }

  // Before the dispatch a frame only says who is there.
  ghost function Meet(c: Coord, inp: Input): Coord {
    match inp.frame
    case Some(Result(_, _, w)) => Touch(c, w, inp.at)
    case Some(Claim(_, w)) => Touch(c, w, inp.at)
    case Some(Bye(w)) => MarkDeparted(c, w, inp.tickRejects)
    case _ => c
  }

  // One tick of the registration gate.
  ghost function Greet(c: Coord, inp: Input): Coord {
    Drain(Meet(c, inp), inp.beats)
  }

  // The state the sweep works on.
  ghost function Heard(c: Coord, cfg: Config, inp: Input): Coord {
    Drain(Receive(Ticked(c), cfg, inp.at, inp.frame, inp.tickRejects), inp.beats)
  }

  // The state after the pass's sweep, before the abort check.
  ghost function Swept(c: Coord, cfg: Config, inp: Input): Coord {
    Sweep(Heard(c, cfg, inp), cfg, inp.t, inp.sweepRejects)
  }

  ghost function Pass(c: Coord, cfg: Config, start: int, inp: Input): Coord {
    Abort(Swept(c, cfg, inp), cfg, start, inp.t)
  }

  // The coordinator before the registration gate: duplicate paths collapse.
  ghost function Fresh(items: seq<Path>): Coord {
    var keys := set p | p in items;
    Coord(map p | p in keys :: Item(0, false), map[], map[], |keys|, Summary(0, 0, 0, 0),
          Log(0, 0, 0, multiset{}, map p | p in keys :: 0, multiset{}))
  }
}
