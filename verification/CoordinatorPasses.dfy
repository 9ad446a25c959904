// The parts of a pass, and whole passes, keep the coordinator's invariant.
module CoordinatorPasses {
  import opened Protocol
  import opened CoordinatorSpec
  import opened CoordinatorLaws

  // Credits a lifecycle frame may add: only a live worker's own non-negative result.
  ghost function MayCredit(c: Coord, frame: Option<Frame>): set<Entry> {
    match frame
    case Some(Result(p, n, w)) => if n >= 0 && Touched(c, w) then {Entry(w, p, n)} else {}
    case _ => {}
  }

  /******* (1) the lifecycle tick *******/

  lemma RedispatchHolder(c: Coord, ps: set<Path>, why: Why, rejects: set<Path>)
    requires HolderOk(c) && ps !! c.holder.Keys
    ensures HolderOk(RedispatchAll(c, ps, why, rejects))
  {
  }

  lemma RedispatchSame(c: Coord, ps: set<Path>, why: Why, rejects: set<Path>)
    ensures RedispatchAll(c, ps, why, rejects).registry == c.registry
            && RedispatchAll(c, ps, why, rejects).holder == c.holder
  {
  }

  lemma DepartHolder(c: Coord, w: WorkerId, d: Coord)
    requires HolderOk(c)
    requires w in d.registry && d == c.(registry := c.registry[w := d.registry[w]], holder := c.holder - HeldBy(c, w))
    ensures HolderOk(d)
  {
  }

  lemma DepartCanSend(c: Coord, cfg: Config, d: Coord, p: Path)
    requires Core(c, cfg) && p in c.state && d.state == c.state && d.log == c.log
    requires |Gone(d.registry, true)| == |Gone(c.registry, true)| + 1
    ensures CanSend(d, p, HolderDeparted)
  {
    hide Conserved, Gone;
    assert Paid(c.log, p, c.state[p].redispatches, |Gone(c.registry, true)|);
  }

  lemma MarkDepartedKeeps(c: Coord, cfg: Config, w: WorkerId, rejects: set<Path>)
    requires Core(c, cfg) && HolderOk(c)
    ensures Inv(MarkDeparted(c, w, rejects), cfg)
    ensures Entries(MarkDeparted(c, w, rejects).registry) == Entries(c.registry)
  {
    hide Core, HolderOk, RedispatchAll, Gone, Entries, CanSend;
    if w in Live(c.registry) {
      var c1 := c.(registry := c.registry[w := c.registry[w].(alive := false, departed := true)],
                   holder := c.holder - HeldBy(c, w));
      var ps := HeldBy(c, w) * Open(c.state);
      assert ps <= Open(c.state) && c1.state == c.state;
      LetGo(c, w, c1);
      DepartKeeps(c, cfg, w, c1);
      DepartHolder(c, w, c1);
      RedispatchSame(c1, ps, HolderDeparted, rejects);
      forall p | p in ps ensures CanSend(c1, p, HolderDeparted) {
        DepartCanSend(c, cfg, c1, p);
      }
      RedispatchKeeps(c1, cfg, ps, HolderDeparted, rejects);
      RedispatchHolder(c1, ps, HolderDeparted, rejects);
    }
  }

  lemma LetGo(c: Coord, w: WorkerId, d: Coord)
    requires d.holder == c.holder - HeldBy(c, w)
    ensures HeldBy(c, w) !! d.holder.Keys
  {
  }

  lemma TouchHolder(c: Coord, w: WorkerId, now: int)
    requires HolderOk(c)
    ensures HolderOk(Touch(c, w, now))
    ensures Touched(c, w) ==> w in Live(Touch(c, w, now).registry)
  {
    assert Live(c.registry) <= Live(Touch(c, w, now).registry);
  }

  lemma ChargeAllows(c: Coord, cfg: Config, ps: set<Path>, p: Path, why: Why)
    requires Core(c, cfg) && p in ps && p in c.state && why in {StoreFault, HolderDied}
    ensures CanSend(ChargeAll(c, ps), p, why)
  {
    hide Conserved, Gone;
    assert Paid(c.log, p, c.state[p].redispatches, |Gone(c.registry, true)|);
  }

  lemma ChargeHolder(c: Coord, ps: set<Path>)
    requires HolderOk(c)
    ensures HolderOk(ChargeAll(c, ps))
  {
  }

  lemma RetryKeeps(c: Coord, cfg: Config, p: Path, rejects: set<Path>)
    requires Inv(c, cfg) && p in Open(c.state) && p !in c.holder && c.state[p].redispatches < cfg.redispatchCap
    ensures Inv(RedispatchAll(ChargeAll(c, {p}), {p}, StoreFault, rejects), cfg)
  {
    hide Core, CanSend, HolderOk, RedispatchAll;
    var c1 := ChargeAll(c, {p});
    ChargeKeeps(c, cfg, {p});
    ChargeHolder(c, {p});
    ChargeAllows(c, cfg, {p}, p, StoreFault);
    hide ChargeAll, Open;
    RedispatchKeeps(c1, cfg, {p}, StoreFault, rejects);
    RedispatchHolder(c1, {p}, StoreFault, rejects);
  }

  lemma CreditHolder(c: Coord, p: Path, n: int, w: WorkerId)
    requires HolderOk(c) && p in Open(c.state) && p !in c.holder && w in Live(c.registry)
    ensures HolderOk(Credit(c, p, n, w))
  {
    assert Live(Credit(c, p, n, w).registry) == Live(c.registry);
  }

  lemma AcceptKeeps(c: Coord, cfg: Config, p: Path, n: int, w: WorkerId)
    requires Inv(c, cfg) && p in Open(c.state) && p !in c.holder && w in Live(c.registry)
    requires n >= 0
    ensures Inv(Credit(c, p, n, w), cfg)
    ensures Entries(Credit(c, p, n, w).registry) == Entries(c.registry) + {Entry(w, p, n)}
  {
    OpenMember(c.state, p);
    CreditHolder(c, p, n, w);
    assert w in c.registry;
    hide Core, HolderOk, Credit, Entries, Open, Live;
    CreditKeeps(c, cfg, p, n, w);
  }

  lemma TouchInv(c: Coord, cfg: Config, w: WorkerId, now: int)
    requires Inv(c, cfg)
    ensures Inv(Touch(c, w, now), cfg)
    ensures Entries(Touch(c, w, now).registry) == Entries(c.registry)
  {
    TouchKeeps(c, cfg, w, now);
    TouchHolder(c, w, now);
  }

  lemma ForgetKeeps(c: Coord, cfg: Config, p: Path)
    requires Inv(c, cfg)
    ensures Inv(c.(holder := c.holder - {p}), cfg)
  {
  }

  lemma SettleInv(c: Coord, cfg: Config, p: Path)
    requires Inv(c, cfg) && p in Open(c.state) && p !in c.holder
    ensures Inv(SettleAll(c, {p}), cfg)
  {
    SettleKeeps(c, cfg, {p});
  }

  // What a live worker's result does to an open item.
  lemma OutcomeKeeps(c: Coord, cfg: Config, p: Path, n: int, w: WorkerId, rejects: set<Path>)
    requires Inv(c, cfg) && p in Open(c.state) && p !in c.holder && w in Live(c.registry)
    ensures Inv(Outcome(c, cfg, p, n, w, rejects), cfg)
    ensures Entries(Outcome(c, cfg, p, n, w, rejects).registry) == Entries(c.registry)
            + if n >= 0 then {Entry(w, p, n)} else {}
  {
    hide Inv;
    if n == PARTIAL && c.state[p].redispatches < cfg.redispatchCap && Live(c.registry) != {} {
      RetryKeeps(c, cfg, p, rejects);
    } else if n >= 0 {
      AcceptKeeps(c, cfg, p, n, w);
    } else {
      SettleInv(c, cfg, p);
    }
  }

  lemma TouchedLives(c: Coord, w: WorkerId, now: int)
    requires Touched(c, w)
    ensures var d := Touch(c, w, now); d == c.(registry := d.registry) && w in Live(d.registry) && w in d.registry
  {
  }

  lemma OpenMember(state: map<Path, Item>, p: Path)
    ensures p in Open(state) <==> p in state && !state[p].done
  {
  }

  lemma OnResultKeeps(c: Coord, cfg: Config, now: int, p: Path, n: int, w: WorkerId, rejects: set<Path>)
    requires Inv(c, cfg)
    ensures Inv(OnResult(c, cfg, now, p, n, w, rejects), cfg)
    ensures Entries(OnResult(c, cfg, now, p, n, w, rejects).registry)
            <= Entries(c.registry) + MayCredit(c, Some(Result(p, n, w)))
  {
    hide Inv, Entries, Outcome, Touch, Touched, Open, Live;
    var c1 := Touch(c, w, now);
    TouchInv(c, cfg, w, now);
    if Touched(c, w) && p in Open(c1.state) {
      TouchedLives(c, w, now);
      OpenMember(c1.state, p);
      ForgetKeeps(c1, cfg, p);
      OutcomeKeeps(c1.(holder := c1.holder - {p}), cfg, p, n, w, rejects);
    }
  }

  // Looking the holder up in the registry is the same as asking whether there is one.
  lemma HeldIffPresent(c: Coord, cfg: Config, p: Path)
    requires Inv(c, cfg)
    ensures HeldByLive(c, p) <==> p in c.holder
  {
  }

  // Noting a tick or a stale claim in the log pays for nothing and owes nothing.
  lemma NoteKeeps(c: Coord, cfg: Config, log: Log)
    requires Inv(c, cfg)
    requires log.lastSent == c.log.lastSent && log.sent == c.log.sent && log.deathPasses == c.log.deathPasses
    requires c.log.goneClaims <= log.goneClaims
    ensures Inv(c.(log := log), cfg)
  {
    forall q | q in c.state ensures Paid(log, q, c.state[q].redispatches, |Gone(c.registry, true)|) {
      assert Paid(c.log, q, c.state[q].redispatches, |Gone(c.registry, true)|);
    }
  }

  lemma StaleClaimAllows(c: Coord, cfg: Config, p: Path)
    requires Core(c, cfg) && p in c.state
    ensures CanSend(c.(log := c.log.(goneClaims := c.log.goneClaims + multiset{p})), p, ClaimedByGone)
  {
    hide Conserved, Gone;
    assert Paid(c.log, p, c.state[p].redispatches, |Gone(c.registry, true)|);
  }

  lemma StaleClaimKeeps(c: Coord, c1: Coord, cfg: Config, p: Path, rejects: set<Path>)
    requires Inv(c, cfg) && p in Open(c.state) && p !in c.holder
    requires c1 == c.(log := c.log.(goneClaims := c.log.goneClaims + multiset{p}))
    ensures Inv(c1, cfg) && Inv(RedispatchAll(c1, {p}, ClaimedByGone, rejects), cfg)
  {
    hide Core, CanSend, HolderOk, RedispatchAll;
    NoteKeeps(c, cfg, c1.log);
    StaleClaimAllows(c, cfg, p);
    RedispatchKeeps(c1, cfg, {p}, ClaimedByGone, rejects);
    RedispatchHolder(c1, {p}, ClaimedByGone, rejects);
  }

  lemma HoldKeeps(c: Coord, cfg: Config, p: Path, w: WorkerId)
    requires Inv(c, cfg) && p in Open(c.state) && w in Live(c.registry)
    ensures Inv(c.(holder := c.holder[p := w]), cfg)
  {
  }

  lemma GoneClaimKeeps(c: Coord, cfg: Config, p: Path, rejects: set<Path>)
    requires Inv(c, cfg)
    ensures var c1 := c.(log := c.log.(goneClaims := c.log.goneClaims + multiset{p}));
            && Inv(c1, cfg)
            && (p in Open(c.state) && p !in c.holder ==>
                  Inv(RedispatchAll(c1, {p}, ClaimedByGone, rejects), cfg)
                  && RedispatchAll(c1, {p}, ClaimedByGone, rejects).registry == c.registry)
  {
    hide Inv, RedispatchAll;
    var c1 := c.(log := c.log.(goneClaims := c.log.goneClaims + multiset{p}));
    NoteKeeps(c, cfg, c1.log);
    if p in Open(c.state) && p !in c.holder {
      StaleClaimKeeps(c, c1, cfg, p, rejects);
      RedispatchSame(c1, {p}, ClaimedByGone, rejects);
    }
  }

  lemma LiveClaimKeeps(c: Coord, cfg: Config, now: int, p: Path, w: WorkerId)
    requires Inv(c, cfg) && Touched(c, w)
    ensures var c1 := Touch(c, w, now);
            && Inv(c1, cfg) && Entries(c1.registry) == Entries(c.registry)
            && (p in Open(c1.state) ==> Inv(c1.(holder := c1.holder[p := w]), cfg))
  {
    TouchInv(c, cfg, w, now);
    TouchedLives(c, w, now);
    hide Inv, Entries, Touch, Touched, Open;
    if p in Open(Touch(c, w, now).state) {
      HoldKeeps(Touch(c, w, now), cfg, p, w);
    }
  }

  lemma OnClaimKeeps(c: Coord, cfg: Config, now: int, p: Path, w: WorkerId, rejects: set<Path>)
    requires Inv(c, cfg)
    ensures Inv(OnClaim(c, now, p, w, rejects), cfg)
    ensures Entries(OnClaim(c, now, p, w, rejects).registry) == Entries(c.registry)
  {
    HeldIffPresent(c, cfg, p);
    hide Inv, Entries, RedispatchAll, HeldByLive, Touch, Touched, Open, Live;
    if Touched(c, w) {
      LiveClaimKeeps(c, cfg, now, p, w);
    } else {
      GoneClaimKeeps(c, cfg, p, rejects);
    }
  }

  lemma ReceiveKeeps(c: Coord, cfg: Config, now: int, frame: Option<Frame>, rejects: set<Path>)
    requires Inv(c, cfg)
    ensures Inv(Receive(c, cfg, now, frame, rejects), cfg)
    ensures Entries(Receive(c, cfg, now, frame, rejects).registry) <= Entries(c.registry) + MayCredit(c, frame)
  {
    match frame
    case Some(Result(p, n, w)) => OnResultKeeps(c, cfg, now, p, n, w, rejects);
    case Some(Claim(p, w)) => OnClaimKeeps(c, cfg, now, p, w, rejects);
    case Some(Bye(w)) => MarkDepartedKeeps(c, cfg, w, rejects);
    case _ =>
  }

  /******* (2) heartbeats *******/

  // Heartbeats change the registry only, and nobody's standing in it.
  ghost predicate Refreshed(c: Coord, d: Coord) {
    && d == c.(registry := d.registry) && c.registry.Keys <= d.registry.Keys
    && forall w :: w in c.registry ==>
         d.registry[w].alive == c.registry[w].alive && d.registry[w].departed == c.registry[w].departed
  }

  lemma TouchRefreshes(c: Coord, d: Coord, w: WorkerId, at: int)
    requires Refreshed(c, d)
    ensures Refreshed(c, Touch(d, w, at))
  {
  }

  lemma {:induction false} DrainKeeps(c: Coord, cfg: Config, beats: seq<Beat>)
    requires Inv(c, cfg)
    ensures Inv(Drain(c, beats), cfg)
    ensures Entries(Drain(c, beats).registry) == Entries(c.registry)
    ensures Refreshed(c, Drain(c, beats))
  {
    if beats != [] {
      hide Inv, Entries, Touch, Refreshed;
      var b, before := beats[|beats| - 1], Drain(c, beats[..|beats| - 1]);
      DrainKeeps(c, cfg, beats[..|beats| - 1]);
      if b.worker.Some? {
        TouchInv(before, cfg, b.worker.value, b.at);
        TouchRefreshes(c, before, b.worker.value, b.at);
      }
    }
  }

  /******* (3) the sweep *******/

  // Between the tombstones and the re-dispatch a holder may also be one of the
  // workers that just died.
  ghost predicate HolderIn(c: Coord, dead: set<WorkerId>) {
    forall p :: p in c.holder ==> p in Open(c.state) && c.holder[p] in Live(c.registry) + dead
  }

  lemma TombstoneHolder(c: Coord, ws: set<WorkerId>)
    requires HolderOk(c) && ws <= Live(c.registry)
    ensures HolderIn(Tombstone(c, ws), ws)
    ensures Live(Tombstone(c, ws).registry) == Live(c.registry) - ws
  {
    assert Live(Tombstone(c, ws).registry) == Live(c.registry) - ws;
  }

  ghost predicate DeathUnspent(c: Coord) {
    forall p :: p in c.state ==> c.log.sent[Sent(p, UnclaimedAtDeath)] < c.log.deathPasses
  }

  lemma NoteDeathsKeeps(c: Coord, d: Coord, cfg: Config, dead: set<WorkerId>)
    requires Core(c, cfg) && dead <= Live(c.registry) && dead != {}
    requires d == NoteDeaths(Tombstone(c, dead), dead)
    ensures Core(d, cfg) && DeathUnspent(d)
  {
    var c1 := Tombstone(c, dead);
    TombstoneKeeps(c, cfg, dead);
    assert c1.state.Keys == c.state.Keys;
    forall p | p in c1.state
      ensures Paid(d.log, p, c1.state[p].redispatches, |Gone(c1.registry, true)|)
      ensures c1.log.sent[Sent(p, UnclaimedAtDeath)] <= c1.log.deathPasses
    {
      assert Paid(c1.log, p, c1.state[p].redispatches, |Gone(c1.registry, true)|);
    }
  }

  // First half: orphans lose their dead holder, and pay for it or are given up.
  ghost function Bereave(c: Coord, cfg: Config, dead: set<WorkerId>): Coord {
    var all := c.state.Keys;
    var spent := Exhausted(c, cfg, dead, all);
    ChargeAll(SettleAll(c.(holder := c.holder - Orphans(c, dead, all)), spent), Orphans(c, dead, all) - spent)
  }

  lemma BereaveKeeps(c: Coord, cfg: Config, dead: set<WorkerId>)
    requires Core(c, cfg) && HolderIn(c, dead)
    ensures Core(Bereave(c, cfg, dead), cfg)
    ensures Open(Bereave(c, cfg, dead).state) == Open(c.state) - Exhausted(c, cfg, dead, c.state.Keys)
  {
    var spent := Exhausted(c, cfg, dead, c.state.Keys);
    var c1 := c.(holder := c.holder - Orphans(c, dead, c.state.Keys));
    assert spent <= Open(c1.state);
    SettleKeeps(c1, cfg, spent);
    ChargeKeeps(SettleAll(c1, spent), cfg, Orphans(c, dead, c.state.Keys) - spent);
  }

  lemma BereaveHolder(c: Coord, cfg: Config, dead: set<WorkerId>)
    requires HolderIn(c, dead) && dead !! Live(c.registry)
    ensures HolderOk(Bereave(c, cfg, dead))
    ensures Orphans(c, dead, c.state.Keys) !! Bereave(c, cfg, dead).holder.Keys
    ensures Unclaimed(c, c.state.Keys) !! Bereave(c, cfg, dead).holder.Keys
  {
  }

  lemma BereaveAllows(c: Coord, cfg: Config, dead: set<WorkerId>, p: Path)
    requires Core(c, cfg) && p in Orphans(c, dead, c.state.Keys) - Exhausted(c, cfg, dead, c.state.Keys)
    ensures CanSend(Bereave(c, cfg, dead), p, HolderDied)
  {
    hide Conserved, Gone;
    assert Paid(c.log, p, c.state[p].redispatches, |Gone(c.registry, true)|);
  }

  lemma StillUnspent(c: Coord, ps: set<Path>, why: Why, rejects: set<Path>)
    requires DeathUnspent(c) && why != UnclaimedAtDeath
    ensures DeathUnspent(RedispatchAll(c, ps, why, rejects))
  {
    var d := RedispatchAll(c, ps, why, rejects);
    forall p | p in c.state ensures d.log.sent[Sent(p, UnclaimedAtDeath)] < c.log.deathPasses {
      SentCounts(SettleAll(c, ps * rejects), ps - rejects, why, p, UnclaimedAtDeath);
    }
  }

  lemma BereaveUnspent(c: Coord, cfg: Config, dead: set<WorkerId>)
    requires DeathUnspent(c)
    ensures DeathUnspent(Bereave(c, cfg, dead)) && Bereave(c, cfg, dead).state.Keys == c.state.Keys
  {
  }

  lemma OrphansSentKeeps(c: Coord, cfg: Config, dead: set<WorkerId>, rejects: set<Path>)
    requires Core(c, cfg) && DeathUnspent(c) && HolderIn(c, dead) && dead !! Live(c.registry)
    ensures var ps := Orphans(c, dead, c.state.Keys) - Exhausted(c, cfg, dead, c.state.Keys);
            var d := RedispatchAll(Bereave(c, cfg, dead), ps, HolderDied, rejects);
            Inv(d, cfg) && DeathUnspent(d)
  {
    hide Core, HolderIn, HolderOk, DeathUnspent, Bereave, CanSend, RedispatchAll, Live;
    var c1 := Bereave(c, cfg, dead);
    var ps := Orphans(c, dead, c.state.Keys) - Exhausted(c, cfg, dead, c.state.Keys);
    BereaveKeeps(c, cfg, dead);
    BereaveHolder(c, cfg, dead);
    BereaveUnspent(c, cfg, dead);
    forall p | p in ps ensures CanSend(c1, p, HolderDied) {
      BereaveAllows(c, cfg, dead, p);
    }
    OrphansOpen(c, cfg, dead);
    RedispatchKeeps(c1, cfg, ps, HolderDied, rejects);
    RedispatchHolder(c1, ps, HolderDied, rejects);
    StillUnspent(c1, ps, HolderDied, rejects);
  }

  lemma OrphansOpen(c: Coord, cfg: Config, dead: set<WorkerId>)
    ensures Orphans(c, dead, c.state.Keys) <= Open(c.state)
  {
  }

  lemma FreeSentKeeps(c: Coord, cfg: Config, ps: set<Path>, rejects: set<Path>)
    requires Inv(c, cfg) && DeathUnspent(c) && ps <= Open(c.state) && ps !! c.holder.Keys
    ensures Inv(RedispatchAll(c, ps, UnclaimedAtDeath, rejects), cfg)
  {
    forall p | p in ps ensures CanSend(c, p, UnclaimedAtDeath) {}
    RedispatchKeeps(c, cfg, ps, UnclaimedAtDeath, rejects);
    RedispatchHolder(c, ps, UnclaimedAtDeath, rejects);
  }

  lemma RedistributeKeeps(c: Coord, cfg: Config, dead: set<WorkerId>, live: bool, rejects: set<Path>)
    requires Core(c, cfg) && DeathUnspent(c) && HolderIn(c, dead) && dead !! Live(c.registry)
    ensures Inv(Redistribute(c, cfg, dead, live, rejects, c.state.Keys), cfg)
  {
    BereaveKeeps(c, cfg, dead);
    BereaveHolder(c, cfg, dead);
    if live {
      OrphansSentKeeps(c, cfg, dead, rejects);
      var ps := Orphans(c, dead, c.state.Keys) - Exhausted(c, cfg, dead, c.state.Keys);
      var c2 := RedispatchAll(Bereave(c, cfg, dead), ps, HolderDied, rejects);
      var free := Unclaimed(c, c.state.Keys);
      FreeStaysOpen(c, cfg, dead, ps, free, rejects);
      hide Core, HolderOk, RedispatchAll, Bereave;
      FreeSentKeeps(c2, cfg, free, rejects);
    }
  }

  lemma FreeStaysOpen(c: Coord, cfg: Config, dead: set<WorkerId>, ps: set<Path>, free: set<Path>, rejects: set<Path>)
    requires HolderIn(c, dead) && ps <= Orphans(c, dead, c.state.Keys) && free == Unclaimed(c, c.state.Keys)
    ensures var d := RedispatchAll(Bereave(c, cfg, dead), ps, HolderDied, rejects);
            free <= Open(d.state) && free !! d.holder.Keys
  {
  }

  lemma RedistributeRegistry(c: Coord, cfg: Config, dead: set<WorkerId>, live: bool, rejects: set<Path>, ps: set<Path>)
    ensures Redistribute(c, cfg, dead, live, rejects, ps).registry == c.registry
  {
  }

  // What TombstoneKeeps and NoteDeathsKeeps leave for the re-dispatch.
  lemma DeathsKeep(c: Coord, cfg: Config, dead: set<WorkerId>)
    requires Core(c, cfg) && HolderOk(c) && dead <= Live(c.registry)
    ensures var d := NoteDeaths(Tombstone(c, dead), dead);
            && d.registry == Bury(c.registry, dead)
            && Entries(d.registry) <= Entries(c.registry)
            && Core(d, cfg) && HolderIn(d, dead) && dead !! Live(d.registry)
            && (dead != {} ==> DeathUnspent(d))
            && (dead == {} ==> HolderOk(d))
  {
    TombstoneKeeps(c, cfg, dead);
    TombstoneHolder(c, dead);
    TombstoneRegistry(c, dead);
    NoteDeathsHolder(Tombstone(c, dead), dead);
    if dead != {} {
      NoteDeathsKeeps(c, NoteDeaths(Tombstone(c, dead), dead), cfg, dead);
    }
    hide Core, Entries, Tombstone, HolderIn, HolderOk, Live, DeathUnspent;
  }

  lemma NoteDeathsHolder(c: Coord, dead: set<WorkerId>)
    requires HolderIn(c, dead)
    ensures HolderIn(NoteDeaths(c, dead), dead)
    ensures dead == {} ==> HolderOk(c)
  {
    assert dead == {} ==> Live(c.registry) + dead == Live(c.registry);
  }

  lemma TombstoneRegistry(c: Coord, ws: set<WorkerId>)
    ensures Tombstone(c, ws).registry == Bury(c.registry, ws)
  {
  }

  lemma SweepKeeps(c: Coord, cfg: Config, t: int, rejects: set<Path>)
    requires Inv(c, cfg)
    ensures Inv(Sweep(c, cfg, t, rejects), cfg)
    ensures Entries(Sweep(c, cfg, t, rejects).registry) <= Entries(c.registry)
    ensures Sweep(c, cfg, t, rejects).registry == Bury(c.registry, Silent(c, cfg, t))
  {
    var dead := Silent(c, cfg, t);
    assert dead <= Live(c.registry);
    DeathsKeep(c, cfg, dead);
    hide Core, Entries, Redistribute, Tombstone, HolderOk, HolderIn, DeathUnspent, NoteDeaths;
    if dead != {} {
      var c1 := NoteDeaths(Tombstone(c, dead), dead);
      RedistributeKeeps(c1, cfg, dead, Live(c1.registry) != {}, rejects);
      RedistributeRegistry(c1, cfg, dead, Live(c1.registry) != {}, rejects, c1.state.Keys);
    }
  }

  /******* Whole passes *******/

  lemma TickKeeps(c: Coord, cfg: Config, frame: Option<Frame>)
    requires Inv(c, cfg)
    ensures Inv(Ticked(c), cfg) && MayCredit(Ticked(c), frame) == MayCredit(c, frame)
  {
    NoteKeeps(c, cfg, c.log.(tick := c.log.tick + 1));
  }

  lemma HeardKeeps(c: Coord, cfg: Config, inp: Input)
    requires Inv(c, cfg)
    ensures Inv(Heard(c, cfg, inp), cfg)
    ensures Entries(Heard(c, cfg, inp).registry) <= Entries(c.registry) + MayCredit(c, inp.frame)
  {
    TickKeeps(c, cfg, inp.frame);
    hide Inv, Receive, Drain, Entries, MayCredit;
    ReceiveKeeps(Ticked(c), cfg, inp.at, inp.frame, inp.tickRejects);
    DrainKeeps(Receive(Ticked(c), cfg, inp.at, inp.frame, inp.tickRejects), cfg, inp.beats);
  }

  lemma SweptKeeps(c: Coord, cfg: Config, inp: Input)
    requires Inv(c, cfg)
    ensures Inv(Swept(c, cfg, inp), cfg)
    ensures Entries(Swept(c, cfg, inp).registry) <= Entries(c.registry) + MayCredit(c, inp.frame)
    ensures Swept(c, cfg, inp).registry == Bury(Heard(c, cfg, inp).registry, Silent(Heard(c, cfg, inp), cfg, inp.t))
  {
    hide Inv, Heard, Sweep, Entries, MayCredit;
    HeardKeeps(c, cfg, inp);
    SweepKeeps(Heard(c, cfg, inp), cfg, inp.t, inp.sweepRejects);
  }
}
