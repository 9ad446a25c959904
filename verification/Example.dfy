// The hypotheses of the end-to-end theorems can be met: a run of the composed
// system in which a worker cleans a file and the coordinator credits it.
module Example {
  import opened Protocol
  import opened CoordinatorSpec
  import opened CoordinatorLaws
  import opened CoordinatorRuns
  import opened CoordinatorSteps
  import opened Extractor
  import opened Store
  import opened Pipeline
  import opened System
  import opened EndToEnd

  // A sweep in which nobody has been silent for too long.
  lemma NobodyDies(c: Coord, cfg: Config, t: int, rejects: set<Path>)
    requires Silent(c, cfg, t) == {}
    ensures Sweep(c, cfg, t, rejects) == c
  {
    assert EntriesOf(c.registry, {}) == {};
    NothingToReopen(c);
    assert Bury(c.registry, {}) == c.registry;
    hide Reopen, EntriesOf;
  }

  // A pass at time 0 with one frame, no heartbeats and no refusals.
  function Now(frame: Frame): Input {
    Input(Some(frame), 0, {}, [], 0, {})
  }

  lemma FramePass(c: Coord, cfg: Config, frame: Frame, d: Coord)
    requires d == Receive(Ticked(c), cfg, 0, Some(frame), {})
    requires cfg.deathThreshold >= 0 && Live(d.registry) != {}
    requires forall w :: w in d.registry ==> d.registry[w].lastSeen == 0
    ensures Pass(c, cfg, 0, Now(frame)) == d
  {
    assert Heard(c, cfg, Now(frame)) == d by { hide Receive; }
    assert Silent(d, cfg, 0) == {};
    hide Receive, Heard, Live;
    NobodyDies(d, cfg, 0, {});
    assert d.registry != map[] by { SomeoneThere(d.registry); }
  }

  lemma SomeoneThere(r: map<WorkerId, Worker>)
    requires Live(r) != {}
    ensures r != map[]
  {
    var w :| w in Live(r);
    assert w in r;
  }

  function Claimed(c: Coord, p: Path, w: WorkerId): Coord {
    c.(registry := map[w := Worker(0, true, false, [])], holder := map[p := w], log := c.log.(tick := 1))
  }

  // The first claim of a fresh coordinator.
  lemma ClaimPass(c: Coord, cfg: Config, p: Path, w: WorkerId)
    requires c.state == map[p := Item(0, false)] && c.registry == map[] && c.holder == map[] && c.log.tick == 0
            && cfg.deathThreshold >= 0
    ensures Pass(c, cfg, 0, Now(Claim(p, w))) == Claimed(c, p, w)
  {
    var d := Claimed(c, p, w);
    assert Receive(Ticked(c), cfg, 0, Some(Claim(p, w)), {}) == d;
    assert w in Live(d.registry);
    hide Receive, Live;
    FramePass(c, cfg, Claim(p, w), d);
  }

  function Counted(c: Coord, p: Path, w: WorkerId, n: nat): Coord {
    c.(state := map[p := Item(0, true)],
       registry := map[w := Worker(0, true, false, [Completion(p, n)])],
       holder := map[],
       open := c.open - 1,
       sum := c.sum.(filesOk := c.sum.filesOk + 1, totalEvents := c.sum.totalEvents + n),
       log := c.log.(tick := 2))
  }

  // The result of the claimed item.
  lemma ResultPass(c: Coord, cfg: Config, p: Path, w: WorkerId, n: nat)
    requires c.state == map[p := Item(0, false)] && c.registry == map[w := Worker(0, true, false, [])]
            && c.holder == map[p := w]
    requires c.log.tick == 1 && cfg.deathThreshold >= 0
    ensures Pass(c, cfg, 0, Now(Result(p, n, w))) == Counted(c, p, w, n)
  {
    var d := Counted(c, p, w, n);
    assert c.registry[w := c.registry[w].(lastSeen := 0)] == c.registry;
    assert Touch(Ticked(c), w, 0) == Ticked(c);
    assert c.holder - {p} == map[];
    assert c.state[p := Item(0, true)] == map[p := Item(0, true)];
    var c2 := Ticked(c).(holder := map[]);
    assert [] + [Completion(p, n)] == [Completion(p, n)];
    assert Credit(c2, p, n, w).registry == d.registry && Credit(c2, p, n, w).state == d.state;
    assert Credit(c2, p, n, w).log == d.log && Credit(c2, p, n, w).sum == d.sum;
    assert p in Open(c.state);
    assert Receive(Ticked(c), cfg, 0, Some(Result(p, n, w)), {}) == d;
    assert w in Live(d.registry);
    hide Receive, Live;
    FramePass(c, cfg, Result(p, n, w), d);
  }

  /******* The run *******/

  const FILE: Path := "day"
  const AGENT: WorkerId := "w"

  function Rows(): seq<RawRow> {
    [RawRow("t0", [0], [0.0], [0.0]), RawRow("t1", [1], [0.0], [0.0])]
  }

  ghost function Factory(): World {
    World("m", (s: string) => Some(0), 1, map[FILE := Rows()])
  }

  lemma OneBatch()
    ensures Sound(Factory()) && FILE in Factory().disk && |FileBatches(Factory(), FILE)| == 1
            && |Concat(FileBatches(Factory(), FILE))| == 1
    ensures Castable(Factory().cast, FileBatches(Factory(), FILE)[0])
  {
    var rows := Rows();
    assert Shaped(rows, 1);
    var e := MakeEvent(Cpp, rows[1], 0, 0);
    assert RowEvents(Cpp, rows[0].count, rows[1], 0) == [];
    assert RowEvents(Cpp, rows[0].count, rows[1], 1) == [e];
    assert RowStream(rows, 1, 0) == [] && RowStream(rows, 1, 1) == [e];
    assert ProgressAt(rows, 1, 0) == Progress([], []);
    assert ProgressAt(rows, 1, 1) == Progress([], []);
    assert ProgressAt(rows, 1, 2) == Progress([], [e]);
    assert Batches(rows, 1) == [[e]];
    assert [[e]][..0] == [];
    assert Concat([[e]]) == Concat([]) + [e] == [e];
  }

  ghost function Agent(pc: Pc, pipe: seq<Frame>, phase: Phase, store: Table): map<WorkerId, Proc> {
    map[AGENT := Proc(pc, pipe, phase, store)]
  }

  ghost function Stored(): Table
    requires Sound(Factory()) && |FileBatches(Factory(), FILE)| == 1
            && Castable(Factory().cast, FileBatches(Factory(), FILE)[0])
  {
    InsertAll(map[], KeyedRows(Factory().cast, "m", FileBatches(Factory(), FILE)[0]))
  }

  lemma Dispatched(c: Coord)
    requires c == Fresh([FILE])
    ensures var d := Dispatch(c, [FILE]);
            && d.state == map[FILE := Item(0, false)] && d.registry == map[] && d.holder == map[] && d.log.tick == 0
            && d.open == 1 && d.sum == Summary(0, 0, 0, 0) && forall p :: SentFor(d.log, p) == multiset{FILE}[p]
  {
    assert c.state == map[FILE := Item(0, false)];
    assert (set p | p in [FILE]) == {FILE};
    assert [FILE][..0] == [];
    var d := SendAll(c, {FILE}, Initial);
    assert Dispatch(c, [FILE]) == d;
    forall p, y ensures d.log.sent[Sent(p, y)] == if p == FILE && y == Initial then 1 else 0 {
      SentCounts(c, {FILE}, Initial, p, y);
    }
  }

  // A worker's step as a step of the system.
  lemma LocalStep(cfg: Config, c: Coord, pr: Proc, a: Act, qr: Proc, bag: multiset<Path>, taken: multiset<Path>)
    requires Sound(Factory()) && (a.Write? || a.Finish?) && a.w == AGENT && ProcStep(Factory(), AGENT, a, pr, qr)
    ensures Step(Factory(), cfg, 0, Sys(c, map[AGENT := pr], bag, taken, {}), a,
                 Sys(c, map[AGENT := qr], bag, taken, {}))
  {
    hide ProcStep, Sound;
    assert map[AGENT := pr][AGENT := qr] == map[AGENT := qr];
  }

  lemma TakeStep(cfg: Config, c: Coord)
    requires Sound(Factory())
    ensures Step(Factory(), cfg, 0, Sys(c, Agent(Idle, [], Free, map[]), multiset{FILE}, multiset{}, {}),
                 Take(AGENT, FILE),
                 Sys(c, Agent(Cleaning(FILE, 0), [Claim(FILE, AGENT)], Free, map[]), multiset{}, multiset{FILE}, {}))
  {
    hide Sound;
    assert [] + [Claim(FILE, AGENT)] == [Claim(FILE, AGENT)];
    assert multiset{FILE} - multiset{FILE} == multiset{} && multiset{} + multiset{FILE} == multiset{FILE};
    var s := Agent(Idle, [], Free, map[]);
    var t := Agent(Cleaning(FILE, 0), [Claim(FILE, AGENT)], Free, map[]);
    assert s[AGENT := t[AGENT]] == t;
  }

  // The coordinator takes the agent's next frame and sends nothing.
  lemma TurnStep(cfg: Config, c: Coord, d: Coord, f: Frame, rest: seq<Frame>, phase: Phase, t: Table)
    requires Sound(Factory()) && c.open > 0 && d == Pass(c, cfg, 0, Now(f)) && d.log.sent == c.log.sent
    ensures Step(Factory(), cfg, 0, Sys(c, Agent(Idle, [f] + rest, phase, t), multiset{}, multiset{FILE}, {}),
                 Turn(Some(AGENT), Now(f)),
                 Sys(d, Agent(Idle, rest, Advance(phase, f), t), multiset{}, multiset{FILE}, {}))
  {
    hide Pass, Sound, Advance;
    var s, u := Agent(Idle, [f] + rest, phase, t), Agent(Idle, rest, Advance(phase, f), t);
    assert ([f] + rest)[1..] == rest;
    assert Deliver(s[AGENT]) == u[AGENT];
    assert s[AGENT := u[AGENT]] == u;
  }

  lemma CreditingRun() returns (cfg: Config, ss: seq<Sys>, acts: seq<Act>)
    ensures Sound(Factory()) && IsRun(Factory(), cfg, 0, [FILE], ss, acts)
    ensures ss[|acts|].coord.open == 0 && FILE in OkFiles(ss[|acts|])
  {
    hide *;
    OneBatch();
    cfg := Config(30, 2, 0, 0);
    var n := |Concat(FileBatches(Factory(), FILE))|;
    var c0 := Dispatch(Fresh([FILE]), [FILE]);
    var c1 := Claimed(c0, FILE, AGENT);
    var c2 := Counted(c1, FILE, AGENT, n);
    var none, bag := multiset{}, multiset{FILE};
    var claim, result := Claim(FILE, AGENT), Result(FILE, n, AGENT);
    var s0 := Sys(c0, Agent(Idle, [], Free, map[]), bag, none, {});
    var s1 := Sys(c0, Agent(Cleaning(FILE, 0), [claim], Free, map[]), none, bag, {});
    var s2 := Sys(c0, Agent(Cleaning(FILE, 1), [claim], Free, Stored()), none, bag, {});
    var s3 := Sys(c0, Agent(Idle, [claim] + [result], Free, Stored()), none, bag, {});
    var s4 := Sys(c1, Agent(Idle, [result] + [], Advance(Free, claim), Stored()), none, bag, {});
    var s5 := Sys(c2, Agent(Idle, [], Advance(Advance(Free, claim), result), Stored()), none, bag, {});
    StartIsInit(cfg, s0);
    Dispatched(Fresh([FILE]));
    TakeStep(cfg, c0);
    CleaningSteps(cfg, c0, n);
    Turns(cfg, c0, n);
    FinallyCredited(c0, n);
    assert [result] + [] == [result];
    ss := [s0, s1, s2, s3, s4, s5];
    acts := [Take(AGENT, FILE), Write(AGENT), Finish(AGENT), Turn(Some(AGENT), Now(claim)),
             Turn(Some(AGENT), Now(result))];
    FiveSteps(cfg, ss, acts);
  }

  lemma FiveSteps(cfg: Config, ss: seq<Sys>, acts: seq<Act>)
    requires Sound(Factory()) && |ss| == 6 && |acts| == 5 && Init(Factory(), cfg, [FILE], ss[0])
    requires Step(Factory(), cfg, 0, ss[0], acts[0], ss[1]) && Step(Factory(), cfg, 0, ss[1], acts[1], ss[2])
    requires Step(Factory(), cfg, 0, ss[2], acts[2], ss[3]) && Step(Factory(), cfg, 0, ss[3], acts[3], ss[4])
    requires Step(Factory(), cfg, 0, ss[4], acts[4], ss[5])
    ensures IsRun(Factory(), cfg, 0, [FILE], ss, acts)
  {
    hide Step, Init, Sound;
    forall i | 0 <= i < |acts| ensures Step(Factory(), cfg, 0, ss[i], acts[i], ss[i + 1]) {
      assert i == 0 || i == 1 || i == 2 || i == 3 || i == 4;
    }
  }

  lemma CleaningSteps(cfg: Config, c: Coord, n: nat)
    requires Sound(Factory()) && |FileBatches(Factory(), FILE)| == 1
            && Castable(Factory().cast, FileBatches(Factory(), FILE)[0])
    requires n == |Concat(FileBatches(Factory(), FILE))|
    ensures var claim, result := Claim(FILE, AGENT), Result(FILE, n, AGENT);
            var s1 := Sys(c, Agent(Cleaning(FILE, 0), [claim], Free, map[]), multiset{}, multiset{FILE}, {});
            var s2 := Sys(c, Agent(Cleaning(FILE, 1), [claim], Free, Stored()), multiset{}, multiset{FILE}, {});
            var s3 := Sys(c, Agent(Idle, [claim] + [result], Free, Stored()), multiset{}, multiset{FILE}, {});
            Step(Factory(), cfg, 0, s1, Write(AGENT), s2) && Step(Factory(), cfg, 0, s2, Finish(AGENT), s3)
  {
    hide FileBatches, Concat, KeyedRows, InsertAll, Castable, Step, Sound;
    var claim, result := Claim(FILE, AGENT), Result(FILE, n, AGENT);
    var p1 := Proc(Cleaning(FILE, 0), [claim], Free, map[]);
    var p2 := Proc(Cleaning(FILE, 1), [claim], Free, Stored());
    var p3 := Proc(Idle, [claim] + [result], Free, Stored());
    LocalStep(cfg, c, p1, Write(AGENT), p2, multiset{}, multiset{FILE});
    LocalStep(cfg, c, p2, Finish(AGENT), p3, multiset{}, multiset{FILE});
  }

  lemma Turns(cfg: Config, c: Coord, n: nat)
    requires Sound(Factory()) && |FileBatches(Factory(), FILE)| == 1
            && Castable(Factory().cast, FileBatches(Factory(), FILE)[0])
    requires cfg == Config(30, 2, 0, 0) && c.state == map[FILE := Item(0, false)] && c.registry == map[]
            && c.holder == map[] && c.log.tick == 0 && c.open == 1
    ensures var claim, result := Claim(FILE, AGENT), Result(FILE, n, AGENT);
            var c1 := Claimed(c, FILE, AGENT);
            var c2 := Counted(c1, FILE, AGENT, n);
            var s3 := Sys(c, Agent(Idle, [claim] + [result], Free, Stored()), multiset{}, multiset{FILE}, {});
            var s4 := Sys(c1, Agent(Idle, [result], Advance(Free, claim), Stored()), multiset{}, multiset{FILE}, {});
            var s4' := Sys(c1, Agent(Idle, [result] + [], Advance(Free, claim), Stored()), multiset{}, multiset{FILE},
                           {});
            var s5 := Sys(c2, Agent(Idle, [], Advance(Advance(Free, claim), result), Stored()), multiset{},
                          multiset{FILE}, {});
            Step(Factory(), cfg, 0, s3, Turn(Some(AGENT), Now(claim)), s4)
                && Step(Factory(), cfg, 0, s4', Turn(Some(AGENT), Now(result)), s5)
  {
    hide FileBatches, Stored, Step, Sound, Pass, Advance;
    var claim, result := Claim(FILE, AGENT), Result(FILE, n, AGENT);
    var c1 := Claimed(c, FILE, AGENT);
    ClaimPass(c, cfg, FILE, AGENT);
    ResultPass(c1, cfg, FILE, AGENT, n);
    TurnStep(cfg, c, c1, claim, [result], Free, Stored());
    TurnStep(cfg, c1, Counted(c1, FILE, AGENT, n), result, [], Advance(Free, claim), Stored());
  }

  lemma FinallyCredited(c: Coord, n: nat)
    requires c.open == 1
    ensures var d := Counted(Claimed(c, FILE, AGENT), FILE, AGENT, n);
            d.open == 0 && forall s: Sys :: s.coord == d ==> FILE in OkFiles(s)
  {
    EntryThere(Counted(Claimed(c, FILE, AGENT), FILE, AGENT, n).registry, AGENT, FILE, n);
    hide Entries, PathsOf;
  }

  lemma EntryThere(r: map<WorkerId, Worker>, w: WorkerId, p: Path, n: nat)
    requires w in r && r[w].completed == [Completion(p, n)]
    ensures p in PathsOf(Entries(r))
  {
    EntriesMember(r, Entry(w, p, n));
    assert Completion(p, n) in r[w].completed;
    assert Entry(w, p, n) in Entries(r);
  }

  lemma NobodyYet()
    ensures Entries(Fresh([FILE]).registry) == {} && Fresh([FILE]).holder == map[]
  {
  }

  lemma AgentStarts()
    requires Sound(Factory())
    ensures ProcStarts(Factory(), AGENT, Proc(Idle, [], Free, map[]))
  {
    hide Sound;
  }

  lemma StartIsInit(cfg: Config, s: Sys)
    requires Sound(Factory())
    requires s == Sys(Dispatch(Fresh([FILE]), [FILE]), Agent(Idle, [], Free, map[]), multiset{FILE}, multiset{}, {})
    ensures Init(Factory(), cfg, [FILE], s)
  {
    hide Inv, Dispatch, Entries, SentFor, Fresh, ProcStarts, Sound;
    FreshInv([FILE], cfg);
    Dispatched(Fresh([FILE]));
    NobodyYet();
    AgentStarts();
  }
}
