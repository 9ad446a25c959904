// Whole runs of the coordinator's loop.
module CoordinatorRuns {
  import opened Protocol
  import opened CoordinatorSpec
  import opened CoordinatorLaws
  import opened CoordinatorPasses

  /******* Conservation over every run *******/

  // The initial dispatch: one frame per listed item, duplicates included.
  ghost function Dispatch(c: Coord, items: seq<Path>): Coord {
    if items == [] then c
    else SendAll(Dispatch(c, items[..|items| - 1]), {items[|items| - 1]}, Initial)
  }

  // The loop: passes until nothing is open, one input per pass.
  ghost function After(c: Coord, cfg: Config, start: int, inputs: seq<Input>): Coord
    decreases |inputs|
  {
    if inputs == [] then c
    else
      var d := After(c, cfg, start, inputs[..|inputs| - 1]);
      if d.open > 0 then Pass(d, cfg, start, inputs[|inputs| - 1]) else d
  }

  // What the gate has met after these ticks.
  ghost function Greeted(c: Coord, inputs: seq<Input>): Coord {
    if inputs == [] then c else Greet(Greeted(c, inputs[..|inputs| - 1]), inputs[|inputs| - 1])
  }

  // The gate holds for exactly these ticks: until enough workers have
  // registered, or up to the first tick past the registration timeout.
  ghost predicate GateHolds(c: Coord, cfg: Config, start: int, inputs: seq<Input>) {
    && (forall k :: 0 <= k < |inputs| ==> |Greeted(c, inputs[..k]).registry| < cfg.expectedWorkers)
    && (forall k :: 0 <= k < |inputs| - 1 ==> inputs[k].t - start <= cfg.registrationTimeout)
    && (|Greeted(c, inputs).registry| >= cfg.expectedWorkers
        || (inputs != [] && inputs[|inputs| - 1].t - start > cfg.registrationTimeout))
  }

  // What an environment delivers, tick by tick: its script, then quiet.
  function InputAt(script: seq<Input>, quiet: nat -> Input, i: nat): Input {
    if i < |script| then script[i] else quiet(i - |script|)
  }

  ghost function Feed(script: seq<Input>, quiet: nat -> Input, from: nat, n: nat): seq<Input> {
    seq(n, i requires 0 <= i < n => InputAt(script, quiet, from + i))
  }

  lemma FeedMore(script: seq<Input>, quiet: nat -> Input, from: nat, n: nat)
    ensures Feed(script, quiet, from, n + 1) == Feed(script, quiet, from, n) + [InputAt(script, quiet, from + n)]
    ensures Feed(script, quiet, from, n + 1)[..n] == Feed(script, quiet, from, n)
  {
  }

  lemma FeedTake(script: seq<Input>, quiet: nat -> Input, from: nat, m: nat, n: nat)
    requires m <= n
    ensures Feed(script, quiet, from, n)[..m] == Feed(script, quiet, from, m)
  {
  }

  // The loop ran these passes and no more.
  ghost predicate LoopHolds(c: Coord, cfg: Config, start: int, inputs: seq<Input>) {
    && (forall k :: 0 <= k < |inputs| ==> After(c, cfg, start, inputs[..k]).open > 0)
    && After(c, cfg, start, inputs).open <= 0
  }

  // What still holds after an abort, which empties `open` without touching items.
  ghost predicate Balanced(c: Coord) {
    && c.sum.filesOk == |Entries(c.registry)|
    && c.sum.totalEvents == EventSum(Entries(c.registry))
    && c.sum.filesOk + c.sum.filesFailed + c.open == |c.state|
    && c.open >= 0
    && OneCreditEach(Entries(c.registry)) && NoDuplicates(c.registry) && RegistryOk(c.registry)
    && c.sum.workersDied == |Gone(c.registry, false)|
  }

  // The cap and the budget of every item, in the terms of the registry.
  ghost predicate WithinBudget(c: Coord, cfg: Config) {
    Budgeted(c.state, c.log, Cap(cfg), |Gone(c.registry, false)|, |Gone(c.registry, true)|)
  }

  ghost predicate Running(c: Coord, cfg: Config) {
    Balanced(c) && WithinBudget(c, cfg) && (c.open > 0 ==> Inv(c, cfg))
  }

  lemma InvBalanced(c: Coord, cfg: Config)
    requires Inv(c, cfg)
    ensures Running(c, cfg)
  {
  }

  lemma RunningInv(c: Coord, cfg: Config)
    requires Running(c, cfg) && c.open > 0
    ensures Inv(c, cfg)
  {
  }

  lemma AbortKeeps(c: Coord, cfg: Config, start: int, t: int)
    requires Inv(c, cfg)
    ensures Running(Abort(c, cfg, start, t), cfg)
  {
    InvBalanced(c, cfg);
    hide Inv, Entries, OneCreditEach, NoDuplicates, RegistryOk, Gone;
  }

  lemma PassKeeps(c: Coord, cfg: Config, start: int, inp: Input)
    requires Inv(c, cfg)
    ensures Running(Pass(c, cfg, start, inp), cfg)
    ensures Entries(Pass(c, cfg, start, inp).registry) <= Entries(c.registry) + MayCredit(c, inp.frame)
  {
    hide Inv, Swept, Running, Entries;
    SweptKeeps(c, cfg, inp);
    AbortKeeps(Swept(c, cfg, inp), cfg, start, inp.t);
  }

  lemma PassItems(c: Coord, cfg: Config, start: int, inp: Input)
    ensures Pass(c, cfg, start, inp).state.Keys == c.state.Keys
  {
    var c1 := Receive(Ticked(c), cfg, inp.at, inp.frame, inp.tickRejects);
    ReceiveItems(Ticked(c), cfg, inp.at, inp.frame, inp.tickRejects);
    hide Receive, Sweep;
    DrainItems(c1, inp.beats);
    SweepItems(Heard(c, cfg, inp), cfg, inp.t, inp.sweepRejects);
  }

  lemma {:induction false} DrainItems(c: Coord, beats: seq<Beat>)
    ensures Drain(c, beats).state == c.state && Drain(c, beats).log == c.log && Drain(c, beats).holder == c.holder
  {
    if beats != [] {
      DrainItems(c, beats[..|beats| - 1]);
    }
  }

  // What a best-effort re-dispatch does to each item.
  lemma RedispatchEffect(c: Coord, ps: set<Path>, why: Why, rejects: set<Path>)
    ensures var d := RedispatchAll(c, ps, why, rejects);
            && d.state.Keys == c.state.Keys
            && (forall p :: p in c.state ==> d.state[p] == Item(c.state[p].redispatches, c.state[p].done
                                                                || p in ps * rejects))
            && d.registry == c.registry && d.holder == c.holder
            && d.log.tick == c.log.tick && d.log.lastDeath == c.log.lastDeath
            && c.log.lastSent.Keys <= d.log.lastSent.Keys
            && (forall p :: p in ps - rejects ==> p in d.log.lastSent && d.log.lastSent[p] == c.log.tick)
            && (forall p :: p in c.log.lastSent && p !in ps ==> d.log.lastSent[p] == c.log.lastSent[p])
  {
  }

  lemma ReceiveItems(c: Coord, cfg: Config, now: int, frame: Option<Frame>, rejects: set<Path>)
    ensures Receive(c, cfg, now, frame, rejects).state.Keys == c.state.Keys
  {
    if frame.Some? && !frame.value.Malformed? {
      if frame.value.Result? {
        RedispatchEffect(ChargeAll(Touch(c, frame.value.worker, now), {frame.value.path}), {frame.value.path},
                         StoreFault, rejects);
      }
    }
  }

  lemma SweepItems(c: Coord, cfg: Config, t: int, rejects: set<Path>)
    ensures Sweep(c, cfg, t, rejects).state.Keys == c.state.Keys
  {
  }

  // Every item is always accounted for once: credited, failed or open. The
  // headline numbers are the size and the event sum of the surviving credits.
  lemma {:induction false} RunConserves(c: Coord, cfg: Config, start: int, inputs: seq<Input>)
    requires Running(c, cfg)
    ensures var d := After(c, cfg, start, inputs);
            && Running(d, cfg) && d.state.Keys == c.state.Keys
            && (d.open == 0 ==> d.sum.filesOk + d.sum.filesFailed == |c.state|)
    decreases |inputs|
  {
    hide Inv, Entries, Pass, OneCreditEach, NoDuplicates, RegistryOk, Gone;
    if inputs != [] {
      RunConserves(c, cfg, start, inputs[..|inputs| - 1]);
      var d := After(c, cfg, start, inputs[..|inputs| - 1]);
      if d.open > 0 {
        PassKeeps(d, cfg, start, inputs[|inputs| - 1]);
        PassItems(d, cfg, start, inputs[|inputs| - 1]);
      }
    }
    var d := After(c, cfg, start, inputs);
    assert |d.state| == |d.state.Keys| == |c.state.Keys| == |c.state|;
  }

  lemma FreshInv(items: seq<Path>, cfg: Config)
    ensures Inv(Fresh(items), cfg)
    ensures Fresh(items).state.Keys == set p | p in items
  {
    var c := Fresh(items);
    assert Open(c.state) == c.state.Keys == set p | p in items;
    assert |c.state| == |c.state.Keys|;
    assert Entries(c.registry) == {};
    assert Gone(c.registry, true) == {} && Gone(c.registry, false) == {};
  }

  lemma {:induction false} DispatchInv(c: Coord, cfg: Config, items: seq<Path>)
    requires Inv(c, cfg) && forall p :: p in items ==> p in c.state
    ensures Inv(Dispatch(c, items), cfg)
    ensures Dispatch(c, items) == c.(log := Dispatch(c, items).log)
  {
    if items != [] {
      var p := items[|items| - 1];
      DispatchInv(c, cfg, items[..|items| - 1]);
      var d := Dispatch(c, items[..|items| - 1]);
      SendKeys(d, {p}, Initial);
      forall q | q in d.state
        ensures Paid(SendAll(d, {p}, Initial).log, q, d.state[q].redispatches, |Gone(d.registry, true)|)
      {
        assert Paid(d.log, q, d.state[q].redispatches, |Gone(d.registry, true)|);
        SentCounts(d, {p}, Initial, q, StoreFault);
        SentCounts(d, {p}, Initial, q, HolderDied);
        SentCounts(d, {p}, Initial, q, UnclaimedAtDeath);
        SentCounts(d, {p}, Initial, q, HolderDeparted);
        SentCounts(d, {p}, Initial, q, ClaimedByGone);
      }
    }
  }

  /******* Budget *******/

  ghost function Resends(log: Log, p: Path): nat {
    Charged(log, p) + log.sent[Sent(p, UnclaimedAtDeath)] + log.sent[Sent(p, HolderDeparted)]
        + log.sent[Sent(p, ClaimedByGone)]
  }

  // No item can flood the queue, during the run or at its return: its re-sends
  // are bounded by the cap, the deaths, the departures and its own stale claims.
  lemma ResendsBounded(c: Coord, cfg: Config, p: Path)
    requires Running(c, cfg) && p in c.state
    ensures c.state[p].redispatches <= Cap(cfg)
    ensures Resends(c.log, p) <= Cap(cfg) + |Gone(c.registry, false)| + |Gone(c.registry, true)| + c.log.goneClaims[p]
  {
    hide Balanced, Inv, Gone;
    assert Paid(c.log, p, c.state[p].redispatches, |Gone(c.registry, true)|);
  }

  // An item's budget is spent only on its own account: a pass raises it by at
  // most one, and only for its own accepted partial failure or its own holder's death.
  lemma ChargeHasCause(c: Coord, cfg: Config, inp: Input, p: Path)
    requires Inv(c, cfg) && p in c.state
    ensures var d := Swept(c, cfg, inp);
            var c2 := Heard(c, cfg, inp);
            && p in d.state
            && c.state[p].redispatches <= d.state[p].redispatches <= c.state[p].redispatches + 1
            && (d.state[p].redispatches > c.state[p].redispatches ==>
                  || (inp.frame.Some? && inp.frame.value.Result? && inp.frame.value.path == p
                      && inp.frame.value.events == PARTIAL && Touched(c, inp.frame.value.worker))
                  || (p in c2.holder && c2.holder[p] in Silent(c2, cfg, inp.t)))
  {
    TickKeeps(c, cfg, inp.frame);
    ReceiveCharges(Ticked(c), cfg, inp.at, inp.frame, inp.tickRejects, p);
    DrainItems(Receive(Ticked(c), cfg, inp.at, inp.frame, inp.tickRejects), inp.beats);
    hide Receive, Drain, Inv, Sweep;
    SweepCharges(Heard(c, cfg, inp), cfg, inp.t, inp.sweepRejects, p);
  }

  lemma ReceiveCharges(c: Coord, cfg: Config, now: int, frame: Option<Frame>, rejects: set<Path>, p: Path)
    requires Inv(c, cfg) && p in c.state
    ensures var d := Receive(c, cfg, now, frame, rejects);
            && p in d.state
            && c.state[p].redispatches <= d.state[p].redispatches <= c.state[p].redispatches + 1
            && (d.state[p].redispatches > c.state[p].redispatches ==>
                  && frame.Some? && frame.value.Result? && frame.value.path == p
                  && frame.value.events == PARTIAL && Touched(c, frame.value.worker) && p !in d.holder)
  {
    match frame
    case Some(Result(q, n, w)) => OnResultCharges(c, cfg, now, q, n, w, rejects, p);
    case Some(Claim(q, w)) => OnClaimCharges(c, now, q, w, rejects, p);
    case Some(Bye(w)) => DepartCharges(c, w, rejects, p);
    case _ =>
    hide Inv, OnResult, OnClaim, MarkDeparted;
  }

  lemma OnClaimCharges(c: Coord, now: int, q: Path, w: WorkerId, rejects: set<Path>, p: Path)
    requires p in c.state
    ensures var d := OnClaim(c, now, q, w, rejects); p in d.state && d.state[p].redispatches == c.state[p].redispatches
  {
    RedispatchEffect(c.(log := c.log.(goneClaims := c.log.goneClaims + multiset{q})), {q}, ClaimedByGone, rejects);
    hide RedispatchAll;
  }

  lemma DepartCharges(c: Coord, w: WorkerId, rejects: set<Path>, p: Path)
    requires p in c.state
    ensures var d := MarkDeparted(c, w, rejects); p in d.state && d.state[p].redispatches == c.state[p].redispatches
  {
    if w in c.registry && c.registry[w].alive {
      RedispatchEffect(c.(registry := c.registry[w := c.registry[w].(alive := false, departed := true)],
                          holder := c.holder - HeldBy(c, w)),
                       HeldBy(c, w) * Open(c.state), HolderDeparted, rejects);
    }
    hide RedispatchAll;
  }

  lemma OnResultCharges(c: Coord, cfg: Config, now: int, q: Path, n: int, w: WorkerId, rejects: set<Path>, p: Path)
    requires p in c.state
    ensures var d := OnResult(c, cfg, now, q, n, w, rejects);
            && p in d.state
            && c.state[p].redispatches <= d.state[p].redispatches <= c.state[p].redispatches + 1
            && (d.state[p].redispatches > c.state[p].redispatches
                ==> q == p && n == PARTIAL && Touched(c, w) && p !in d.holder)
  {
    var c2 := Touch(c, w, now).(holder := c.holder - {q});
    assert Touch(c, w, now).holder == c.holder && c2.state == c.state;
    RedispatchEffect(ChargeAll(c2, {q}), {q}, StoreFault, rejects);
    hide RedispatchAll;
  }

  lemma SweepCharges(c: Coord, cfg: Config, t: int, rejects: set<Path>, p: Path)
    requires p in c.state
    ensures var d := Sweep(c, cfg, t, rejects);
            && p in d.state
            && c.state[p].redispatches <= d.state[p].redispatches <= c.state[p].redispatches + 1
            && (d.state[p].redispatches > c.state[p].redispatches ==> p in c.holder && c.holder[p] in Silent(c, cfg, t))
  {
    var dead := Silent(c, cfg, t);
    var c1 := NoteDeaths(Tombstone(c, dead), dead);
    if dead != {} {
      RedistributeEffect(c1, cfg, dead, Live(c1.registry) != {}, rejects);
    }
    hide Redistribute;
  }

  // What a death's re-dispatch does to each item, by attribution.
  lemma RedistributeEffect(c: Coord, cfg: Config, dead: set<WorkerId>, live: bool, rejects: set<Path>)
    ensures var d := Redistribute(c, cfg, dead, live, rejects, c.state.Keys);
            var orphans := Orphans(c, dead, c.state.Keys);
            var spent := Exhausted(c, cfg, dead, c.state.Keys);
            var resent := if live then orphans - spent + Unclaimed(c, c.state.Keys) else {};
            && d.state.Keys == c.state.Keys && d.holder == c.holder - orphans
            && d.log.tick == c.log.tick && d.log.lastDeath == c.log.lastDeath
            && (forall p :: p in c.state ==>
                  d.state[p] == Item(c.state[p].redispatches + (if p in orphans - spent then 1 else 0),
                                     c.state[p].done || p in spent || p in resent * rejects))
            && (forall p :: p in resent - rejects ==> p in d.log.lastSent && d.log.lastSent[p] == c.log.tick)
  {
    var orphans := Orphans(c, dead, c.state.Keys);
    var spent := Exhausted(c, cfg, dead, c.state.Keys);
    var c1 := ChargeAll(SettleAll(c.(holder := c.holder - orphans), spent), orphans - spent);
    var c2 := RedispatchAll(c1, orphans - spent, HolderDied, rejects);
    RedispatchEffect(c1, orphans - spent, HolderDied, rejects);
    RedispatchEffect(c2, Unclaimed(c, c.state.Keys), UnclaimedAtDeath, rejects);
    hide RedispatchAll;
  }

  /******* Termination *******/

  // A pass with no frame and no heartbeat, later than every live worker's
  // deadline, is the last one, whatever the work socket refuses.
  lemma QuietPassIsLast(c: Coord, cfg: Config, start: int, inp: Input)
    requires Inv(c, cfg) && inp.frame == None && inp.beats == []
    requires forall w :: w in Live(c.registry) ==> inp.t - c.registry[w].lastSeen > cfg.deathThreshold
    requires c.registry == map[] ==> inp.t - start > cfg.deathThreshold
    ensures Pass(c, cfg, start, inp).open == 0
  {
    hide Inv, Swept, Heard, Silent, Bury, Live, Entries, MayCredit;
    SweptKeeps(c, cfg, inp);
    OpenNotNegative(Swept(c, cfg, inp), cfg);
    QuietHeard(c, cfg, inp);
    EveryoneSilent(Ticked(c), cfg, inp.t);
    BuryAll(c.registry);
  }

  lemma QuietHeard(c: Coord, cfg: Config, inp: Input)
    requires inp.frame == None && inp.beats == []
    ensures Heard(c, cfg, inp) == Ticked(c) && Heard(c, cfg, inp).registry == c.registry
  {
  }

  lemma EveryoneSilent(c: Coord, cfg: Config, t: int)
    requires forall w :: w in Live(c.registry) ==> t - c.registry[w].lastSeen > cfg.deathThreshold
    ensures Silent(c, cfg, t) == Live(c.registry)
  {
  }

  lemma BuryAll(r: map<WorkerId, Worker>)
    ensures Live(Bury(r, Live(r))) == {} && Bury(r, Live(r)).Keys == r.Keys
  {
  }

  lemma PassRegistry(c: Coord, cfg: Config, start: int, inp: Input)
    ensures Pass(c, cfg, start, inp).registry == Swept(c, cfg, inp).registry
  {
    hide Swept;
  }

  lemma OpenNotNegative(c: Coord, cfg: Config)
    requires Inv(c, cfg)
    ensures c.open >= 0
  {
  }

  /******* No item is stranded *******/

  // Each open item is with a live holder, or went out again after the latest death.
  ghost predicate Attended(c: Coord) {
    && c.log.lastDeath <= c.log.tick
    && (forall p :: p in Open(c.state) ==> p in c.holder || (p in c.log.lastSent
                                                             && c.log.lastSent[p] >= c.log.lastDeath))
  }

  ghost predicate NoOutstandingBye(c: Coord, frame: Option<Frame>) {
    frame.Some? && frame.value.Bye? ==> HeldBy(c, frame.value.worker) == {}
  }

  lemma RedispatchAttends(c: Coord, ps: set<Path>, why: Why, rejects: set<Path>)
    requires c.log.lastDeath <= c.log.tick
    requires forall p :: p in Open(c.state) ==>
            p in ps || p in c.holder || (p in c.log.lastSent && c.log.lastSent[p] >= c.log.lastDeath)
    ensures Attended(RedispatchAll(c, ps, why, rejects))
  {
    RedispatchEffect(c, ps, why, rejects);
    hide RedispatchAll;
  }

  lemma OnResultAttends(c: Coord, cfg: Config, now: int, q: Path, n: int, w: WorkerId, rejects: set<Path>)
    requires Attended(c)
    ensures Attended(OnResult(c, cfg, now, q, n, w, rejects))
  {
    var c1 := Touch(c, w, now);
    assert c1 == c.(registry := c1.registry);
    if Touched(c, w) && q in Open(c.state) {
      OutcomeAttends(c1.(holder := c1.holder - {q}), cfg, q, n, w, rejects);
    }
    hide Outcome, Touch, Live;
  }

  // All other items are as attended as they were, q goes out again or is done.
  lemma OutcomeAttends(c: Coord, cfg: Config, q: Path, n: int, w: WorkerId, rejects: set<Path>)
    requires c.log.lastDeath <= c.log.tick && q in c.state && w in c.registry
    requires forall p :: p in Open(c.state) && p != q ==>
            p in c.holder || (p in c.log.lastSent && c.log.lastSent[p] >= c.log.lastDeath)
    ensures Attended(Outcome(c, cfg, q, n, w, rejects))
  {
    RedispatchAttends(ChargeAll(c, {q}), {q}, StoreFault, rejects);
    hide RedispatchAll, Live;
  }

  lemma ReceiveAttends(c: Coord, cfg: Config, now: int, frame: Option<Frame>, rejects: set<Path>)
    requires Attended(c) && NoOutstandingBye(c, frame)
    ensures Attended(Receive(c, cfg, now, frame, rejects))
  {
    match frame
    case Some(Result(q, n, w)) => OnResultAttends(c, cfg, now, q, n, w, rejects);
    case Some(Claim(q, w)) => OnClaimAttends(c, now, q, w, rejects);
    case Some(Bye(w)) => DepartAttends(c, w, rejects);
    case _ =>
    hide Attended, OnResult, OnClaim, MarkDeparted;
  }

  lemma DepartAttends(c: Coord, w: WorkerId, rejects: set<Path>)
    requires Attended(c) && HeldBy(c, w) == {}
    ensures Attended(MarkDeparted(c, w, rejects))
  {
    if w in c.registry && c.registry[w].alive {
      var c1 := c.(registry := c.registry[w := c.registry[w].(alive := false, departed := true)],
                   holder := c.holder - HeldBy(c, w));
      assert c1.holder == c.holder;
      RedispatchAttends(c1, HeldBy(c, w) * Open(c.state), HolderDeparted, rejects);
    }
    hide RedispatchAll;
  }

  lemma OnClaimAttends(c: Coord, now: int, q: Path, w: WorkerId, rejects: set<Path>)
    requires Attended(c)
    ensures Attended(OnClaim(c, now, q, w, rejects))
  {
    RedispatchAttends(c.(log := c.log.(goneClaims := c.log.goneClaims + multiset{q})), {q}, ClaimedByGone, rejects);
    ClaimAttends(c, now, q, w);
    hide RedispatchAll, Attended;
  }

  lemma ClaimAttends(c: Coord, now: int, q: Path, w: WorkerId)
    requires Attended(c)
    ensures Attended(Touch(c, w, now)) && Attended(Touch(c, w, now).(holder := c.holder[q := w]))
    ensures Attended(c.(log := c.log.(goneClaims := c.log.goneClaims + multiset{q})))
  {
  }

  lemma SweepAttends(c: Coord, cfg: Config, t: int, rejects: set<Path>)
    requires Attended(c)
    ensures Silent(c, cfg, t) == {} || Live(Bury(c.registry, Silent(c, cfg, t))) != {}
            ==> Attended(Sweep(c, cfg, t, rejects))
  {
    var dead := Silent(c, cfg, t);
    var c1 := NoteDeaths(Tombstone(c, dead), dead);
    if dead == {} {
      assert EntriesOf(c.registry, dead) == {};
      assert Open(c1.state) == Open(c.state);
    } else if Live(c1.registry) != {} {
      RedistributeEffect(c1, cfg, dead, true, rejects);
      hide Redistribute;
      AttendedAfter(c1, Sweep(c, cfg, t, rejects), cfg, dead, rejects);
    }
  }

  lemma AttendedAfter(c: Coord, d: Coord, cfg: Config, dead: set<WorkerId>, rejects: set<Path>)
    requires d.state.Keys == c.state.Keys && d.log.tick == c.log.tick == c.log.lastDeath == d.log.lastDeath
    requires d.holder == c.holder - Orphans(c, dead, c.state.Keys)
    requires var resent := Orphans(c, dead, c.state.Keys) - Exhausted(c, cfg, dead, c.state.Keys)
                + Unclaimed(c, c.state.Keys);
             && (forall p :: p in c.state && !d.state[p].done ==>
                   !c.state[p].done && p !in Exhausted(c, cfg, dead, c.state.Keys) && p !in resent * rejects)
             && (forall p :: p in resent - rejects ==> p in d.log.lastSent && d.log.lastSent[p] == c.log.tick)
    ensures Attended(d)
  {
  }

  // At every loop head each open item is held by a live worker, or its latest
  // WORK frame is no older than the latest death.
  lemma PassAttends(c: Coord, cfg: Config, start: int, inp: Input)
    requires Inv(c, cfg) && Attended(c) && NoOutstandingBye(c, inp.frame)
    ensures Pass(c, cfg, start, inp).open > 0 ==> Attended(Pass(c, cfg, start, inp))
  {
    hide Inv, Attended, Receive, Drain, Sweep, Silent, Bury, Live, Entries, MayCredit, NoOutstandingBye;
    var c1 := Receive(Ticked(c), cfg, inp.at, inp.frame, inp.tickRejects);
    var c2 := Heard(c, cfg, inp);
    TickAttends(c, inp.frame);
    ReceiveAttends(Ticked(c), cfg, inp.at, inp.frame, inp.tickRejects);
    DrainItems(c1, inp.beats);
    SameAttended(c1, c2);
    SweepAttends(c2, cfg, inp.t, inp.sweepRejects);
    SweptKeeps(c, cfg, inp);
    SomeoneBuried(c2, cfg, inp.t);
  }

  lemma TickAttends(c: Coord, frame: Option<Frame>)
    requires Attended(c) && NoOutstandingBye(c, frame)
    ensures Attended(Ticked(c)) && NoOutstandingBye(Ticked(c), frame)
  {
  }

  lemma SameAttended(c: Coord, d: Coord)
    requires Attended(c) && d.state == c.state && d.log == c.log && d.holder == c.holder
    ensures Attended(d)
  {
  }

  lemma SomeoneBuried(c: Coord, cfg: Config, t: int)
    ensures Silent(c, cfg, t) != {} ==> Bury(c.registry, Silent(c, cfg, t)) != map[]
  {
    assert Bury(c.registry, Silent(c, cfg, t)).Keys == c.registry.Keys;
    if Silent(c, cfg, t) != {} {
      var w :| w in Silent(c, cfg, t);
      assert w in c.registry;
    }
  }
}
