// What one pass may do to the holder map and to workers that are gone: the
// facts about the coordinator that the composition with its workers rests on.
module CoordinatorEffects {
  import opened Protocol
  import opened CoordinatorSpec
  import opened CoordinatorLaws
  import opened CoordinatorPasses
  import opened CoordinatorRuns
  import opened CoordinatorSteps

  // An entry of the new holder map is an old one, or the claim just received;
  // never the item a worker has just reported on.
  ghost predicate HolderFrom(c: Coord, d: Coord, frame: Option<Frame>) {
    forall p :: p in d.holder ==>
      && ((p in c.holder && d.holder[p] == c.holder[p]) || frame == Some(Claim(p, d.holder[p])))
      && (frame.Some? && frame.value.Result? && frame.value.worker == d.holder[p] ==> frame.value.path != p)
  }

  lemma OnResultHolder(c: Coord, cfg: Config, now: int, p: Path, n: int, w: WorkerId, rejects: set<Path>)
    requires HolderOk(c)
    ensures HolderFrom(c, OnResult(c, cfg, now, p, n, w, rejects), Some(Result(p, n, w)))
  {
    var c2 := Touch(c, w, now).(holder := c.holder - {p});
    assert Touch(c, w, now) == c.(registry := Touch(c, w, now).registry);
    RedispatchSame(ChargeAll(c2, {p}), {p}, StoreFault, rejects);
    hide RedispatchAll, SettleAll;
    assert SettleAll(c2, {p}).holder == c2.holder by { SettleHolder(c2, {p}); }
  }

  lemma SettleHolder(c: Coord, ps: set<Path>)
    ensures SettleAll(c, ps).holder == c.holder && SettleAll(c, ps).registry == c.registry
  {
  }

  lemma OnClaimHolder(c: Coord, now: int, p: Path, w: WorkerId, rejects: set<Path>)
    ensures HolderFrom(c, OnClaim(c, now, p, w, rejects), Some(Claim(p, w)))
  {
    RedispatchSame(c.(log := c.log.(goneClaims := c.log.goneClaims + multiset{p})), {p}, ClaimedByGone, rejects);
    hide RedispatchAll;
  }

  lemma DepartHolderFrom(c: Coord, w: WorkerId, rejects: set<Path>)
    ensures HolderFrom(c, MarkDeparted(c, w, rejects), Some(Bye(w)))
  {
    if w in c.registry && c.registry[w].alive {
      RedispatchSame(c.(registry := c.registry[w := c.registry[w].(alive := false, departed := true)],
                        holder := c.holder - HeldBy(c, w)),
                     HeldBy(c, w) * Open(c.state), HolderDeparted, rejects);
    }
    hide RedispatchAll;
  }

  lemma ReceiveHolder(c: Coord, cfg: Config, now: int, frame: Option<Frame>, rejects: set<Path>)
    requires HolderOk(c)
    ensures HolderFrom(c, Receive(c, cfg, now, frame, rejects), frame)
  {
    hide HolderFrom, OnResult, OnClaim, MarkDeparted, HolderOk;
    match frame
    case Some(Result(p, n, w)) => OnResultHolder(c, cfg, now, p, n, w, rejects);
    case Some(Claim(p, w)) => OnClaimHolder(c, now, p, w, rejects);
    case Some(Bye(w)) => DepartHolderFrom(c, w, rejects);
    case _ => SameHolder(c, frame);
  }

  lemma SameHolder(c: Coord, frame: Option<Frame>)
    requires frame == None || frame == Some(Malformed)
    ensures HolderFrom(c, c, frame)
  {
  }

  lemma SweepHolder(c: Coord, cfg: Config, t: int, rejects: set<Path>)
    ensures Sweep(c, cfg, t, rejects).holder.Keys <= c.holder.Keys
    ensures forall p :: p in Sweep(c, cfg, t, rejects).holder ==> Sweep(c, cfg, t, rejects).holder[p] == c.holder[p]
  {
    var dead := Silent(c, cfg, t);
    var c1 := NoteDeaths(Tombstone(c, dead), dead);
    assert c1.holder == c.holder;
    RedistributeEffect(c1, cfg, dead, Live(c1.registry) != {}, rejects);
    hide Redistribute, Tombstone;
  }

  lemma PassHolder(c: Coord, cfg: Config, start: int, inp: Input)
    requires Inv(c, cfg)
    ensures HolderFrom(c, Pass(c, cfg, start, inp), inp.frame)
  {
    var c1 := Receive(Ticked(c), cfg, inp.at, inp.frame, inp.tickRejects);
    TickKeeps(c, cfg, inp.frame);
    ReceiveHolder(Ticked(c), cfg, inp.at, inp.frame, inp.tickRejects);
    hide Inv, Receive, Drain, Sweep;
    DrainItems(c1, inp.beats);
    SweepHolder(Heard(c, cfg, inp), cfg, inp.t, inp.sweepRejects);
  }

  /******* Gone stays gone *******/

  ghost predicate StaysGone(r: map<WorkerId, Worker>, s: map<WorkerId, Worker>) {
    forall w :: w in r && !r[w].alive ==> w in s && !s[w].alive && s[w].departed == r[w].departed
  }

  lemma OutcomeGone(c: Coord, cfg: Config, p: Path, n: int, w: WorkerId, rejects: set<Path>)
    requires p in c.state && w in c.registry
    ensures StaysGone(c.registry, Outcome(c, cfg, p, n, w, rejects).registry)
  {
    RedispatchSame(ChargeAll(c, {p}), {p}, StoreFault, rejects);
    SettleHolder(c, {p});
    hide RedispatchAll, SettleAll;
  }

  lemma OnResultGone(c: Coord, cfg: Config, now: int, p: Path, n: int, w: WorkerId, rejects: set<Path>)
    ensures StaysGone(c.registry, OnResult(c, cfg, now, p, n, w, rejects).registry)
  {
    var c1 := Touch(c, w, now);
    assert StaysGone(c.registry, c1.registry);
    if Touched(c, w) && p in Open(c1.state) {
      var c2 := c1.(holder := c1.holder - {p});
      OutcomeGone(c2, cfg, p, n, w, rejects);
      StaysGoneTrans(c.registry, c1.registry, Outcome(c2, cfg, p, n, w, rejects).registry);
    }
    hide Outcome, StaysGone, Open;
  }

  lemma OnClaimGone(c: Coord, now: int, p: Path, w: WorkerId, rejects: set<Path>)
    ensures StaysGone(c.registry, OnClaim(c, now, p, w, rejects).registry)
  {
    RedispatchSame(c.(log := c.log.(goneClaims := c.log.goneClaims + multiset{p})), {p}, ClaimedByGone, rejects);
    hide RedispatchAll, Open;
  }

  lemma DepartGone(c: Coord, w: WorkerId, rejects: set<Path>)
    ensures StaysGone(c.registry, MarkDeparted(c, w, rejects).registry)
  {
    hide RedispatchAll, Open, HeldBy, Live, StaysGone;
    if w in c.registry && c.registry[w].alive {
      var r := c.registry[w := c.registry[w].(alive := false, departed := true)];
      RedispatchSame(c.(registry := r, holder := c.holder - HeldBy(c, w)), HeldBy(c, w) * Open(c.state),
                     HolderDeparted, rejects);
      RetireGone(c.registry, w, c.registry[w].(alive := false, departed := true));
    } else {
      RetireGone(c.registry, w, Worker(0, false, true, []));
    }
  }

  lemma RetireGone(r: map<WorkerId, Worker>, w: WorkerId, x: Worker)
    ensures StaysGone(r, r) && (w in r && r[w].alive ==> StaysGone(r, r[w := x]))
  {
  }

  lemma ReceiveGone(c: Coord, cfg: Config, now: int, frame: Option<Frame>, rejects: set<Path>)
    ensures StaysGone(c.registry, Receive(c, cfg, now, frame, rejects).registry)
  {
    match frame
    case Some(Result(p, n, w)) => OnResultGone(c, cfg, now, p, n, w, rejects);
    case Some(Claim(p, w)) => OnClaimGone(c, now, p, w, rejects);
    case Some(Bye(w)) => DepartGone(c, w, rejects);
    case _ =>
    hide OnResult, OnClaim, MarkDeparted;
  }

  lemma {:induction false} DrainGone(c: Coord, beats: seq<Beat>)
    ensures StaysGone(c.registry, Drain(c, beats).registry)
  {
    if beats != [] {
      DrainGone(c, beats[..|beats| - 1]);
    }
  }

  lemma BuryGone(r: map<WorkerId, Worker>, ws: set<WorkerId>)
    requires forall w :: w in ws && w in r ==> r[w].alive
    ensures StaysGone(r, Bury(r, ws))
  {
  }

  // A worker that left or was tombstoned is never anything else again.
  lemma PassGone(c: Coord, cfg: Config, start: int, inp: Input)
    requires Inv(c, cfg)
    ensures StaysGone(c.registry, Pass(c, cfg, start, inp).registry)
  {
    var c1 := Receive(Ticked(c), cfg, inp.at, inp.frame, inp.tickRejects);
    var c2 := Heard(c, cfg, inp);
    ReceiveGone(Ticked(c), cfg, inp.at, inp.frame, inp.tickRejects);
    DrainGone(c1, inp.beats);
    SweptKeeps(c, cfg, inp);
    BuryGone(c2.registry, Silent(c2, cfg, inp.t));
    hide Inv, Receive, Drain, Sweep, Entries, MayCredit, Bury;
    StaysGoneTrans(c.registry, c1.registry, c2.registry);
    StaysGoneTrans(c.registry, c2.registry, Swept(c, cfg, inp).registry);
  }

  lemma StaysGoneTrans(r: map<WorkerId, Worker>, s: map<WorkerId, Worker>, t: map<WorkerId, Worker>)
    requires StaysGone(r, s) && StaysGone(s, t)
    ensures StaysGone(r, t)
  {
  }

  /******* What each event comes to *******/

  // A live worker's result for an open item: a count is credited to it, a
  // failure settles the item, and -2 within the budget sends it out once more.
  lemma ResultOutcome(c: Coord, cfg: Config, now: int, p: Path, n: int, w: WorkerId, rejects: set<Path>)
    requires Inv(c, cfg) && Touched(c, w) && p in Open(c.state)
    ensures var d := OnResult(c, cfg, now, p, n, w, rejects);
            var retry := n == PARTIAL && c.state[p].redispatches < cfg.redispatchCap;
            && p !in d.holder && p in d.state
            && (n >= 0 ==>
                && Entries(d.registry) == Entries(c.registry) + {Entry(w, p, n)}
                && d.state[p].done && d.open == c.open - 1)
            && (n < 0 ==> Entries(d.registry) == Entries(c.registry))
            && (n < 0 && (!retry || p in rejects) ==>
                d.state[p].done && d.sum.filesFailed == c.sum.filesFailed + 1 && d.open == c.open - 1)
            && (retry && p !in rejects ==>
                  d.state[p] == Item(c.state[p].redispatches + 1, false) && d.open == c.open && d.sum == c.sum
                  && d.log.sent[Sent(p, StoreFault)] == c.log.sent[Sent(p, StoreFault)] + 1)
  {
    var c1 := Touch(c, w, now);
    var c2 := c1.(holder := c1.holder - {p});
    TouchInv(c, cfg, w, now);
    TouchedLives(c, w, now);
    hide Inv, Entries, Touch, Outcome, Touched, Open, Live;
    assert p in Open(c1.state) && p in c2.state by { OpenMember(c.state, p); }
    OutcomeIs(c2, cfg, p, n, w, rejects);
  }

  lemma OutcomeIs(c: Coord, cfg: Config, p: Path, n: int, w: WorkerId, rejects: set<Path>)
    requires p in c.state && !c.state[p].done && w in c.registry && w in Live(c.registry) && p !in c.holder
    ensures var d := Outcome(c, cfg, p, n, w, rejects);
            var retry := n == PARTIAL && c.state[p].redispatches < cfg.redispatchCap;
            && p !in d.holder && p in d.state
            && (n >= 0 ==>
                && Entries(d.registry) == Entries(c.registry) + {Entry(w, p, n)}
                && d.state[p].done && d.open == c.open - 1)
            && (n < 0 ==> Entries(d.registry) == Entries(c.registry))
            && (n < 0 && (!retry || p in rejects) ==>
                d.state[p].done && d.sum.filesFailed == c.sum.filesFailed + 1 && d.open == c.open - 1)
            && (retry && p !in rejects ==>
                  d.state[p] == Item(c.state[p].redispatches + 1, false) && d.open == c.open && d.sum == c.sum
                  && d.log.sent[Sent(p, StoreFault)] == c.log.sent[Sent(p, StoreFault)] + 1)
  {
    hide Entries, Live, Credit, SettleAll, RedispatchAll;
    if n >= 0 {
      CreditEntries(c, p, n, w);
      CreditPlain(c, p, n, w);
    } else {
      RedispatchOf(ChargeAll(c, {p}), p, StoreFault, rejects);
      SettleOf(c, p);
    }
  }

  lemma CreditPlain(c: Coord, p: Path, n: int, w: WorkerId)
    requires p in c.state && w in c.registry
    ensures var d := Credit(c, p, n, w); d.state[p].done && d.open == c.open - 1 && d.holder == c.holder && p in d.state
  {
  }

  lemma SettleOf(c: Coord, p: Path)
    requires p in c.state
    ensures var d := SettleAll(c, {p});
            p in d.state && d.state[p].done && d.open == c.open - 1 && d.sum.filesFailed == c.sum.filesFailed + 1
            && d.holder == c.holder && d.registry == c.registry
  {
  }

  lemma RedispatchOf(c: Coord, p: Path, why: Why, rejects: set<Path>)
    requires p in c.state
    ensures var d := RedispatchAll(c, {p}, why, rejects);
            && p in d.state && d.holder == c.holder && d.registry == c.registry
            && (p in rejects ==> d.state[p].done && d.open == c.open - 1 && d.sum.filesFailed == c.sum.filesFailed + 1)
            && (p !in rejects ==> d.state[p] == c.state[p] && d.open == c.open && d.sum == c.sum
                                  && d.log.sent[Sent(p, why)] == c.log.sent[Sent(p, why)] + 1)
  {
    if p in rejects {
      assert {p} * rejects == {p} && {p} - rejects == {};
    } else {
      assert {p} * rejects == {} && {p} - rejects == {p};
      NothingToSettle(c);
      SentCounts(SettleAll(c, {}), {p}, why, p, why);
    }
  }

  // A sweep takes back exactly the credits of the workers it buries.
  lemma SweepUncredits(c: Coord, cfg: Config, t: int, rejects: set<Path>)
    requires Inv(c, cfg)
    ensures Entries(Sweep(c, cfg, t, rejects).registry) == Entries(c.registry)
            - EntriesOf(c.registry, Silent(c, cfg, t))
  {
    hide Inv, Sweep, Entries, Bury;
    SweepKeeps(c, cfg, t, rejects);
    BuryEntries(c.registry, Silent(c, cfg, t));
  }

  // Each file a dead worker was credited with is open again, and while somebody
  // is live it has gone out again in this very pass, unless its send was refused.
  lemma DeadWorkReopened(c: Coord, cfg: Config, t: int, rejects: set<Path>, e: Entry)
    requires Inv(c, cfg) && e in EntriesOf(c.registry, Silent(c, cfg, t))
    ensures var d := Sweep(c, cfg, t, rejects);
            && e !in Entries(d.registry)
            && (Live(d.registry) == {} || e.path !in rejects ==> e.path in Open(d.state))
            && (Live(d.registry) != {} && e.path !in rejects
                ==> e.path in d.log.lastSent && d.log.lastSent[e.path] == c.log.tick)
  {
    var dead := Silent(c, cfg, t);
    var c1 := NoteDeaths(Tombstone(c, dead), dead);
    SweepUncredits(c, cfg, t, rejects);
    DeadCredit(c, cfg, dead, e);
    assert dead != {};
    RedistributeEffect(c1, cfg, dead, Live(c1.registry) != {}, rejects);
    RedistributeRegistry(c1, cfg, dead, Live(c1.registry) != {}, rejects, c1.state.Keys);
    hide Inv, Redistribute, Tombstone, Entries, EntriesOf, Silent, Live;
  }

  lemma DeadCredit(c: Coord, cfg: Config, dead: set<WorkerId>, e: Entry)
    requires Inv(c, cfg) && e in EntriesOf(c.registry, dead)
    ensures var d := NoteDeaths(Tombstone(c, dead), dead);
            && e.path in Open(d.state) && e.path !in d.holder && d.log.tick == c.log.tick
            && e in Entries(c.registry) && dead != {}
  {
    BuryEntries(c.registry, dead);
    assert e.path in PathsOf(EntriesOf(c.registry, dead));
    hide Entries, EntriesOf, NoDuplicates, RegistryOk, Gone, Budgeted, EventSum;
    assert dead != {} by { SomeoneDead(c.registry, dead, e); }
  }

  lemma SomeoneDead(registry: map<WorkerId, Worker>, dead: set<WorkerId>, e: Entry)
    requires e in EntriesOf(registry, dead)
    ensures dead != {}
  {
  }

  /******* The initial frames *******/

  // Only the initial dispatch sends initial frames.
  ghost predicate SameInitial(a: Log, b: Log) {
    forall p :: a.sent[Sent(p, Initial)] == b.sent[Sent(p, Initial)]
  }

  lemma ResendNotInitial(c: Coord, ps: set<Path>, why: Why, rejects: set<Path>)
    requires why != Initial
    ensures SameInitial(c.log, RedispatchAll(c, ps, why, rejects).log)
  {
    var d := SettleAll(c, ps * rejects);
    forall p ensures SendAll(d, ps - rejects, why).log.sent[Sent(p, Initial)] == c.log.sent[Sent(p, Initial)] {
      SentCounts(d, ps - rejects, why, p, Initial);
    }
  }

  lemma OnResultInitial(c: Coord, cfg: Config, now: int, p: Path, n: int, w: WorkerId, rejects: set<Path>)
    ensures SameInitial(c.log, OnResult(c, cfg, now, p, n, w, rejects).log)
  {
    var c1 := Touch(c, w, now);
    assert c1.log == c.log;
    ResendNotInitial(ChargeAll(c1.(holder := c1.holder - {p}), {p}), {p}, StoreFault, rejects);
    hide RedispatchAll, SameInitial;
    assert SameInitial(c.log, c.log) by { LogUnchanged(c.log); }
  }

  lemma LogUnchanged(log: Log)
    ensures SameInitial(log, log)
  {
  }

  lemma OnClaimInitial(c: Coord, now: int, p: Path, w: WorkerId, rejects: set<Path>)
    ensures SameInitial(c.log, OnClaim(c, now, p, w, rejects).log)
  {
    var c1 := c.(log := c.log.(goneClaims := c.log.goneClaims + multiset{p}));
    ResendNotInitial(c1, {p}, ClaimedByGone, rejects);
    hide RedispatchAll;
  }

  lemma DepartInitial(c: Coord, w: WorkerId, rejects: set<Path>)
    ensures SameInitial(c.log, MarkDeparted(c, w, rejects).log)
  {
    if w in c.registry && c.registry[w].alive {
      var r := c.registry[w := c.registry[w].(alive := false, departed := true)];
      ResendNotInitial(c.(registry := r, holder := c.holder - HeldBy(c, w)), HeldBy(c, w) * Open(c.state),
                       HolderDeparted, rejects);
    }
    hide RedispatchAll;
  }

  lemma ReceiveInitial(c: Coord, cfg: Config, now: int, frame: Option<Frame>, rejects: set<Path>)
    ensures SameInitial(c.log, Receive(c, cfg, now, frame, rejects).log)
  {
    match frame
    case Some(Result(p, n, w)) => OnResultInitial(c, cfg, now, p, n, w, rejects);
    case Some(Claim(p, w)) => OnClaimInitial(c, now, p, w, rejects);
    case Some(Bye(w)) => DepartInitial(c, w, rejects);
    case _ =>
    hide OnResult, OnClaim, MarkDeparted;
  }

  lemma SweepInitial(c: Coord, cfg: Config, t: int, rejects: set<Path>)
    ensures SameInitial(c.log, Sweep(c, cfg, t, rejects).log)
  {
    var dead := Silent(c, cfg, t);
    var c1 := NoteDeaths(Tombstone(c, dead), dead);
    var ps := c1.state.Keys;
    var spent := Exhausted(c1, cfg, dead, ps);
    var charged := Orphans(c1, dead, ps) - spent;
    var c2 := ChargeAll(SettleAll(c1.(holder := c1.holder - Orphans(c1, dead, ps)), spent), charged);
    assert c1.log.sent == c.log.sent == c2.log.sent;
    hide RedispatchAll, Orphans, Exhausted, Unclaimed, Tombstone, ChargeAll, SettleAll;
    ResendNotInitial(c2, charged, HolderDied, rejects);
    ResendNotInitial(RedispatchAll(c2, charged, HolderDied, rejects), Unclaimed(c1, ps), UnclaimedAtDeath, rejects);
  }

  lemma PassInitial(c: Coord, cfg: Config, start: int, inp: Input)
    ensures SameInitial(c.log, Pass(c, cfg, start, inp).log)
  {
    var c1 := Receive(Ticked(c), cfg, inp.at, inp.frame, inp.tickRejects);
    ReceiveInitial(Ticked(c), cfg, inp.at, inp.frame, inp.tickRejects);
    hide Receive, Drain, Sweep;
    DrainItems(c1, inp.beats);
    SweepInitial(Heard(c, cfg, inp), cfg, inp.t, inp.sweepRejects);
  }

  // One initial frame for each time an item is listed.
  lemma {:induction false} DispatchInitial(c: Coord, items: seq<Path>, p: Path)
    ensures Dispatch(c, items).log.sent[Sent(p, Initial)] == c.log.sent[Sent(p, Initial)] + multiset(items)[p]
  {
    if items != [] {
      var n := |items| - 1;
      DispatchInitial(c, items[..n], p);
      assert items == items[..n] + [items[n]];
      SentCounts(Dispatch(c, items[..n]), {items[n]}, Initial, p, Initial);
    }
  }
}
