// What every pass of the coordinator keeps, over every frame, clock reading
// and send failure its environment may produce.
module CoordinatorLaws {
  import opened Protocol
  import opened CoordinatorSpec

  /******* The invariant *******/

  // One file, one credit, across all completion lists...
  ghost predicate OneCreditEach(es: set<Entry>) {
    forall e, f :: e in es && f in es && e.path == f.path ==> e == f
  }

  // ...and no list names a file twice.
  ghost predicate NoDuplicates(registry: map<WorkerId, Worker>) {
    forall w :: w in registry ==>
      forall i, j :: 0 <= i < j < |registry[w].completed|
          ==> registry[w].completed[i].path != registry[w].completed[j].path
  }

  ghost predicate RegistryOk(registry: map<WorkerId, Worker>) {
    forall w :: w in registry ==>
      && (registry[w].departed ==> !registry[w].alive)
      && (!registry[w].alive && !registry[w].departed ==> registry[w].completed == [])
  }

  // Conservation: the counters say exactly what the lists and item states say.
  ghost predicate Tally(state: map<Path, Item>, es: set<Entry>, open: int, filesOk: int, filesFailed: int,
                        totalEvents: int) {
    && open == |Open(state)|
    && filesOk == |es|
    && totalEvents == EventSum(es)
    && filesOk + filesFailed + open == |state|
    && OneCreditEach(es)
    && (forall e :: e in es ==> e.path in state && state[e.path].done && e.events >= 0)
  }

  ghost predicate Conserved(c: Coord) {
    && Tally(c.state, Entries(c.registry), c.open, c.sum.filesOk, c.sum.filesFailed, c.sum.totalEvents)
    && NoDuplicates(c.registry)
    && RegistryOk(c.registry)
  }

  // Between passes a holder is live and what it holds is open.
  ghost predicate HolderOk(c: Coord) {
    forall p :: p in c.holder ==> p in Open(c.state) && c.holder[p] in Live(c.registry)
  }

  ghost function Cap(cfg: Config): nat {
    if cfg.redispatchCap < 0 then 0 else cfg.redispatchCap
  }

  ghost function Gone(registry: map<WorkerId, Worker>, departed: bool): set<WorkerId> {
    set w | w in registry && !registry[w].alive && registry[w].departed == departed
  }

  ghost function Charged(log: Log, p: Path): nat {
    log.sent[Sent(p, StoreFault)] + log.sent[Sent(p, HolderDied)]
  }

  // Every extra WORK frame is paid for: a charge of the item itself, one death
  // pass, one departure, or one consumed claim of a worker that is gone.
  ghost predicate Paid(log: Log, p: Path, redispatches: nat, departures: nat) {
    && Charged(log, p) <= redispatches
    && log.sent[Sent(p, UnclaimedAtDeath)] <= log.deathPasses
    && log.sent[Sent(p, HolderDeparted)] <= departures
    && log.sent[Sent(p, ClaimedByGone)] <= log.goneClaims[p]
  }

  ghost predicate Budgeted(state: map<Path, Item>, log: Log, cap: nat, deaths: nat, departures: nat) {
    && log.lastSent.Keys == state.Keys
    && log.deathPasses <= deaths
    && (forall p :: p in state ==> state[p].redispatches <= cap && Paid(log, p, state[p].redispatches, departures))
  }

  ghost predicate Core(c: Coord, cfg: Config) {
    && Conserved(c)
    && c.sum.workersDied == |Gone(c.registry, false)|
    && Budgeted(c.state, c.log, Cap(cfg), |Gone(c.registry, false)|, |Gone(c.registry, true)|)
  }

  ghost predicate Inv(c: Coord, cfg: Config) {
    Core(c, cfg) && HolderOk(c)
  }

  /******* Event sums *******/

  lemma {:induction false} EventSumTake(es: set<Entry>, e: Entry)
    requires e in es
    ensures EventSum(es) == e.events + EventSum(es - {e})
    decreases |es|
  {
    var f :| f in es && EventSum(es) == f.events + EventSum(es - {f});
    if f != e {
      EventSumTake(es - {f}, e);
      EventSumTake(es - {e}, f);
      assert es - {f} - {e} == es - {e} - {f};
    }
  }

  lemma {:induction false} EventSumSplit(es: set<Entry>, fs: set<Entry>)
    requires fs <= es
    ensures EventSum(es) == EventSum(fs) + EventSum(es - fs)
    decreases |fs|
  {
    if fs == {} {
      assert es - fs == es;
    } else {
      var e :| e in fs;
      EventSumTake(fs, e);
      EventSumTake(es, e);
      EventSumSplit(es - {e}, fs - {e});
      assert es - {e} - (fs - {e}) == es - fs;
    }
  }

  // Distinct credits are for distinct paths, so paths can be counted by entries.
  lemma {:induction false} PathsCount(es: set<Entry>)
    requires OneCreditEach(es)
    ensures |PathsOf(es)| == |es|
    decreases |es|
  {
    if es != {} {
      var e :| e in es;
      PathsCount(es - {e});
      assert PathsOf(es) == PathsOf(es - {e}) + {e.path};
    }
  }

  /******* Settling, sending and charging *******/

  lemma SettleTally(c: Coord, es: set<Entry>, ps: set<Path>)
    requires Tally(c.state, es, c.open, c.sum.filesOk, c.sum.filesFailed, c.sum.totalEvents) && ps <= Open(c.state)
    ensures var d := SettleAll(c, ps);
            Tally(d.state, es, d.open, d.sum.filesOk, d.sum.filesFailed, d.sum.totalEvents)
            && Open(d.state) == Open(c.state) - ps
  {
    var d := SettleAll(c, ps);
    assert Open(d.state) == Open(c.state) - ps;
    assert d.state.Keys == c.state.Keys;
    hide EventSum;
  }

  lemma SettleBudget(c: Coord, ps: set<Path>, cap: nat, deaths: nat, departures: nat)
    requires Budgeted(c.state, c.log, cap, deaths, departures)
    ensures Budgeted(SettleAll(c, ps).state, c.log, cap, deaths, departures)
  {
    assert SettleAll(c, ps).state.Keys == c.state.Keys;
    hide Paid;
  }

  lemma SettleKeeps(c: Coord, cfg: Config, ps: set<Path>)
    requires Core(c, cfg) && ps <= Open(c.state)
    ensures Core(SettleAll(c, ps), cfg)
    ensures Open(SettleAll(c, ps).state) == Open(c.state) - ps
  {
    hide Tally, Entries, NoDuplicates, RegistryOk, Gone, Budgeted, Open;
    SettleTally(c, Entries(c.registry), ps);
    SettleBudget(c, ps, Cap(cfg), |Gone(c.registry, false)|, |Gone(c.registry, true)|);
  }

  ghost predicate CanSend(c: Coord, p: Path, why: Why) {
    && p in c.state
    && why != Initial
    && (why == StoreFault || why == HolderDied ==> Charged(c.log, p) < c.state[p].redispatches)
    && (why == UnclaimedAtDeath ==> c.log.sent[Sent(p, why)] < c.log.deathPasses)
    && (why == HolderDeparted ==> c.log.sent[Sent(p, why)] < |Gone(c.registry, true)|)
    && (why == ClaimedByGone ==> c.log.sent[Sent(p, why)] < c.log.goneClaims[p])
  }

  lemma SentCounts(c: Coord, ps: set<Path>, why: Why, p: Path, y: Why)
    ensures SendAll(c, ps, why).log.sent[Sent(p, y)] == c.log.sent[Sent(p, y)] + if p in ps && y == why then 1 else 0
  {
    assert Sent(p, y) in (set q | q in ps :: Sent(q, why)) <==> p in ps && y == why;
  }

  lemma SendPaid(c: Coord, ps: set<Path>, why: Why, p: Path)
    requires p in c.state && Paid(c.log, p, c.state[p].redispatches, |Gone(c.registry, true)|)
    requires p in ps ==> CanSend(c, p, why)
    ensures Paid(SendAll(c, ps, why).log, p, c.state[p].redispatches, |Gone(c.registry, true)|)
  {
    SentCounts(c, ps, why, p, StoreFault);
    SentCounts(c, ps, why, p, HolderDied);
    SentCounts(c, ps, why, p, UnclaimedAtDeath);
    SentCounts(c, ps, why, p, HolderDeparted);
    SentCounts(c, ps, why, p, ClaimedByGone);
  }

  lemma SendKeys(c: Coord, ps: set<Path>, why: Why)
    requires c.log.lastSent.Keys == c.state.Keys && ps <= c.state.Keys
    ensures SendAll(c, ps, why).log.lastSent.Keys == c.state.Keys
  {
  }

  lemma CanSendListed(c: Coord, ps: set<Path>, why: Why)
    requires forall p :: p in ps ==> CanSend(c, p, why)
    ensures ps <= c.state.Keys
  {
    forall p | p in ps ensures p in c.state { assert CanSend(c, p, why); }
  }

  lemma SendKeeps(c: Coord, cfg: Config, ps: set<Path>, why: Why)
    requires Core(c, cfg) && forall p :: p in ps ==> CanSend(c, p, why)
    ensures Core(SendAll(c, ps, why), cfg)
  {
    hide Conserved, Gone, CanSend, Paid;
    forall p | p in c.state ensures Paid(SendAll(c, ps, why).log, p, c.state[p].redispatches, |Gone(c.registry, true)|)
    {
      SendPaid(c, ps, why, p);
    }
    CanSendListed(c, ps, why);
    SendKeys(c, ps, why);
    assert Conserved(SendAll(c, ps, why)) by { LogFree(c, SendAll(c, ps, why)); }
  }

  // Conservation does not read the log or the holder map.
  lemma LogFree(c: Coord, d: Coord)
    requires Conserved(c) && d == c.(log := d.log, holder := d.holder)
    ensures Conserved(d)
  {
    hide Tally, Entries, NoDuplicates, RegistryOk;
  }

  lemma StillSendable(c: Coord, ps: set<Path>, p: Path, why: Why)
    requires CanSend(c, p, why) && p !in ps
    ensures CanSend(SettleAll(c, ps), p, why)
  {
    hide Gone;
  }

  lemma RedispatchKeeps(c: Coord, cfg: Config, ps: set<Path>, why: Why, rejects: set<Path>)
    requires Core(c, cfg) && ps <= Open(c.state) && forall p :: p in ps ==> CanSend(c, p, why)
    ensures Core(RedispatchAll(c, ps, why, rejects), cfg)
    ensures Open(RedispatchAll(c, ps, why, rejects).state) == Open(c.state) - ps * rejects
  {
    SettleKeeps(c, cfg, ps * rejects);
    var d := SettleAll(c, ps * rejects);
    forall p | p in ps - rejects ensures CanSend(d, p, why) {
      StillSendable(c, ps * rejects, p, why);
    }
    SendKeeps(d, cfg, ps - rejects, why);
    hide Core, Open, SettleAll, SendAll, CanSend;
  }

  lemma ChargeKeeps(c: Coord, cfg: Config, ps: set<Path>)
    requires Core(c, cfg)
    requires forall p :: p in ps && p in c.state ==> c.state[p].redispatches < cfg.redispatchCap
    ensures Core(ChargeAll(c, ps), cfg)
    ensures Open(ChargeAll(c, ps).state) == Open(c.state)
  {
    hide Entries, NoDuplicates, RegistryOk, Gone, EventSum, OneCreditEach;
    var d := ChargeAll(c, ps);
    assert Open(d.state) == Open(c.state);
    assert d.state.Keys == c.state.Keys;
  }

  /******* Changes of the registry *******/

  lemma EntriesMember(registry: map<WorkerId, Worker>, e: Entry)
    ensures e in Entries(registry) <==>
            e.worker in registry && Completion(e.path, e.events) in registry[e.worker].completed
  {
    if e in Entries(registry) {
      var w, k :| w in registry && k in registry[w].completed && e == Entry(w, k.path, k.events);
      assert k == Completion(e.path, e.events);
    }
  }

  // Registering, refreshing or retiring a worker does not move credits.
  lemma SameListsSameEntries(r: map<WorkerId, Worker>, s: map<WorkerId, Worker>)
    requires r.Keys <= s.Keys
    requires forall w :: w in r ==> s[w].completed == r[w].completed
    requires forall w :: w in s && w !in r ==> s[w].completed == []
    ensures Entries(s) == Entries(r)
  {
    forall e ensures e in Entries(s) <==> e in Entries(r) {
      EntriesMember(r, e);
      EntriesMember(s, e);
    }
  }

  lemma TouchRegistry(c: Coord, w: WorkerId, now: int)
    requires NoDuplicates(c.registry) && RegistryOk(c.registry)
    ensures NoDuplicates(Touch(c, w, now).registry) && RegistryOk(Touch(c, w, now).registry)
    ensures forall departed :: Gone(Touch(c, w, now).registry, departed) == Gone(c.registry, departed)
  {
  }

  lemma TouchKeeps(c: Coord, cfg: Config, w: WorkerId, now: int)
    requires Core(c, cfg)
    ensures Core(Touch(c, w, now), cfg)
    ensures Entries(Touch(c, w, now).registry) == Entries(c.registry)
  {
    var d := Touch(c, w, now);
    SameListsSameEntries(c.registry, d.registry);
    TouchRegistry(c, w, now);
    hide Tally, Entries, NoDuplicates, RegistryOk, Gone, Budgeted;
  }

  lemma DepartRegistry(registry: map<WorkerId, Worker>, w: WorkerId)
    requires RegistryOk(registry) && NoDuplicates(registry) && w in Live(registry)
    ensures var r := registry[w := registry[w].(alive := false, departed := true)];
            && RegistryOk(r) && NoDuplicates(r)
            && |Gone(r, true)| == |Gone(registry, true)| + 1 && |Gone(r, false)| == |Gone(registry, false)|
  {
    var r := registry[w := registry[w].(alive := false, departed := true)];
    assert Gone(r, true) == Gone(registry, true) + {w};
    assert Gone(r, false) == Gone(registry, false);
  }

  lemma MoreDepartures(state: map<Path, Item>, log: Log, cap: nat, deaths: nat, less: nat, more: nat)
    requires Budgeted(state, log, cap, deaths, less) && less <= more
    ensures Budgeted(state, log, cap, deaths, more)
  {
  }

  lemma DepartKeeps(c: Coord, cfg: Config, w: WorkerId, d: Coord)
    requires Core(c, cfg) && w in Live(c.registry)
    requires d == c.(registry := c.registry[w := c.registry[w].(alive := false, departed := true)],
                     holder := c.holder - HeldBy(c, w))
    ensures Core(d, cfg) && Entries(d.registry) == Entries(c.registry)
    ensures |Gone(d.registry, true)| == |Gone(c.registry, true)| + 1
  {
    DepartRegistry(c.registry, w);
    MoreDepartures(c.state, c.log, Cap(cfg), |Gone(c.registry, false)|, |Gone(c.registry, true)|,
                   |Gone(c.registry, true)| + 1);
    hide Entries, NoDuplicates, RegistryOk, Gone, Budgeted, Tally, HeldBy;
    SameListsSameEntries(c.registry, d.registry);
  }

  lemma CreditEntries(c: Coord, p: Path, n: int, w: WorkerId)
    requires p in c.state && w in c.registry
    ensures Entries(Credit(c, p, n, w).registry) == Entries(c.registry) + {Entry(w, p, n)}
  {
    var d := Credit(c, p, n, w);
    forall e ensures e in Entries(d.registry) <==> e in Entries(c.registry) + {Entry(w, p, n)} {
      EntriesMember(c.registry, e);
      EntriesMember(d.registry, e);
    }
  }

  lemma CreditTally(state: map<Path, Item>, es: set<Entry>, open: int, ok: int, failed: int, total: int, e: Entry)
    requires Tally(state, es, open, ok, failed, total) && e.path in Open(state) && e.events >= 0
    ensures Tally(state[e.path := state[e.path].(done := true)], es + {e}, open - 1, ok + 1, failed, total + e.events)
  {
    assert Open(state[e.path := state[e.path].(done := true)]) == Open(state) - {e.path};
    assert e !in es;
    EventSumTake(es + {e}, e);
    assert es + {e} - {e} == es;
    assert state[e.path := state[e.path].(done := true)].Keys == state.Keys;
  }

  lemma CreditNoDuplicates(c: Coord, p: Path, n: int, w: WorkerId)
    requires Conserved(c) && p in Open(c.state) && w in c.registry
    ensures NoDuplicates(Credit(c, p, n, w).registry)
  {
    forall i | 0 <= i < |c.registry[w].completed| ensures c.registry[w].completed[i].path != p {
      var k := c.registry[w].completed[i];
      EntriesMember(c.registry, Entry(w, k.path, k.events));
    }
  }

  lemma CreditRegistry(c: Coord, p: Path, n: int, w: WorkerId)
    requires RegistryOk(c.registry) && p in c.state && w in Live(c.registry)
    ensures RegistryOk(Credit(c, p, n, w).registry)
    ensures forall departed :: Gone(Credit(c, p, n, w).registry, departed) == Gone(c.registry, departed)
  {
  }

  lemma CreditBudget(c: Coord, p: Path, n: int, w: WorkerId, cap: nat, deaths: nat, departures: nat)
    requires p in c.state && w in c.registry && Budgeted(c.state, c.log, cap, deaths, departures)
    ensures Budgeted(Credit(c, p, n, w).state, c.log, cap, deaths, departures)
  {
    assert Credit(c, p, n, w).state.Keys == c.state.Keys;
  }

  lemma CreditKeeps(c: Coord, cfg: Config, p: Path, n: int, w: WorkerId)
    requires Core(c, cfg) && p in Open(c.state) && w in Live(c.registry) && n >= 0
    ensures Core(Credit(c, p, n, w), cfg)
    ensures Entries(Credit(c, p, n, w).registry) == Entries(c.registry) + {Entry(w, p, n)}
  {
    CreditEntries(c, p, n, w);
    CreditTally(c.state, Entries(c.registry), c.open, c.sum.filesOk, c.sum.filesFailed, c.sum.totalEvents,
                Entry(w, p, n));
    CreditNoDuplicates(c, p, n, w);
    CreditRegistry(c, p, n, w);
    CreditBudget(c, p, n, w, Cap(cfg), |Gone(c.registry, false)|, |Gone(c.registry, true)|);
    hide Tally, Entries, NoDuplicates, RegistryOk, Gone, Budgeted, Live;
  }

  lemma BuryEntries(registry: map<WorkerId, Worker>, ws: set<WorkerId>)
    ensures Entries(Bury(registry, ws)) == Entries(registry) - EntriesOf(registry, ws)
    ensures EntriesOf(registry, ws) <= Entries(registry)
  {
    forall e ensures e in Entries(Bury(registry, ws)) <==> e in Entries(registry) && e !in EntriesOf(registry, ws) {
      EntriesMember(registry, e);
      EntriesMember(Bury(registry, ws), e);
    }
  }

  lemma ReopenOpens(c: Coord, lost: set<Entry>)
    requires OneCreditEach(lost)
    requires forall e :: e in lost ==> e.path in c.state && c.state[e.path].done
    ensures Open(Reopen(c, lost).state) == Open(c.state) + PathsOf(lost)
    ensures |Open(Reopen(c, lost).state)| == |Open(c.state)| + |lost|
    ensures Reopen(c, lost).state.Keys == c.state.Keys
  {
    PathsCount(lost);
    assert Open(Reopen(c, lost).state) == Open(c.state) + PathsOf(lost);
    assert Open(c.state) !! PathsOf(lost);
  }

  lemma ReopenedStaysDone(c: Coord, es: set<Entry>, lost: set<Entry>)
    requires OneCreditEach(es) && lost <= es
    requires forall e :: e in es ==> e.path in c.state && c.state[e.path].done
    ensures forall e :: e in es - lost ==> e.path in c.state && Reopen(c, lost).state[e.path].done
  {
    forall e | e in es - lost ensures Reopen(c, lost).state[e.path].done {
      assert e.path !in PathsOf(lost);
    }
  }

  lemma ReopenCounts(c: Coord, lost: set<Entry>)
    ensures var d := Reopen(c, lost);
            && d.state.Keys == c.state.Keys && |d.state| == |c.state|
            && d.open == c.open + |lost|
            && d.sum.filesOk == c.sum.filesOk - |lost| && d.sum.filesFailed == c.sum.filesFailed
            && d.sum.totalEvents == c.sum.totalEvents - EventSum(lost)
  {
    hide EventSum, PathsOf;
    assert |Reopen(c, lost).state| == |Reopen(c, lost).state.Keys|;
    assert |c.state| == |c.state.Keys|;
  }

  lemma FewerCredits(es: set<Entry>, lost: set<Entry>)
    requires OneCreditEach(es) && lost <= es
    ensures OneCreditEach(lost) && OneCreditEach(es - lost)
    ensures |es - lost| == |es| - |lost|
  {
  }

  lemma ReopenTally(c: Coord, es: set<Entry>, lost: set<Entry>)
    requires Tally(c.state, es, c.open, c.sum.filesOk, c.sum.filesFailed, c.sum.totalEvents) && lost <= es
    ensures var d := Reopen(c, lost);
            Tally(d.state, es - lost, d.open, d.sum.filesOk, d.sum.filesFailed, d.sum.totalEvents)
  {
    hide Reopen, Open, EventSum, PathsOf, OneCreditEach;
    FewerCredits(es, lost);
    EventSumSplit(es, lost);
    ReopenOpens(c, lost);
    ReopenedStaysDone(c, es, lost);
    ReopenCounts(c, lost);
  }

  lemma BuryRegistry(registry: map<WorkerId, Worker>, ws: set<WorkerId>)
    requires NoDuplicates(registry) && RegistryOk(registry) && ws <= Live(registry)
    ensures NoDuplicates(Bury(registry, ws)) && RegistryOk(Bury(registry, ws))
    ensures Gone(Bury(registry, ws), true) == Gone(registry, true)
    ensures |Gone(Bury(registry, ws), false)| == |Gone(registry, false)| + |ws|
  {
    assert Gone(Bury(registry, ws), false) == Gone(registry, false) + ws;
    assert Gone(registry, false) !! ws;
  }

  lemma ReopenBudget(c: Coord, es: set<Entry>, cap: nat, deaths: nat, more: nat, departures: nat)
    requires Budgeted(c.state, c.log, cap, deaths, departures) && deaths <= more
    ensures Budgeted(Reopen(c, es).state, c.log, cap, more, departures)
  {
    assert Reopen(c, es).state.Keys == c.state.Keys;
  }

  lemma TombstoneKeeps(c: Coord, cfg: Config, ws: set<WorkerId>)
    requires Core(c, cfg) && ws <= Live(c.registry)
    ensures Core(Tombstone(c, ws), cfg)
    ensures Entries(Tombstone(c, ws).registry) == Entries(c.registry) - EntriesOf(c.registry, ws)
    ensures |Gone(Tombstone(c, ws).registry, false)| == |Gone(c.registry, false)| + |ws|
  {
    BuryEntries(c.registry, ws);
    ReopenTally(c, Entries(c.registry), EntriesOf(c.registry, ws));
    BuryRegistry(c.registry, ws);
    ReopenBudget(c, EntriesOf(c.registry, ws), Cap(cfg), |Gone(c.registry, false)|, |Gone(c.registry, false)| + |ws|,
                 |Gone(c.registry, true)|);
  }
}
