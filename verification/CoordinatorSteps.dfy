// Doing the work of a sweep one item or one worker at a time is doing it at
// once: what the loops of the Coordinator class rely on.
module CoordinatorSteps {
  import opened Protocol
  import opened CoordinatorSpec
  import opened CoordinatorLaws

  lemma FramesStep(ps: set<Path>, p: Path, why: Why)
    requires p !in ps
    ensures Frames(ps + {p}, why) == Frames(ps, why) + Frames({p}, why)
  {
    var a, b := set q | q in ps :: Sent(q, why), set q | q in {p} :: Sent(q, why);
    var c := set q | q in ps + {p} :: Sent(q, why);
    assert c == a + b;
    assert Sent(p, why) !in a;
  }

  lemma NoFrames(why: Why)
    ensures Frames({}, why) == multiset{}
  {
  }

  lemma SendStep(c: Coord, ps: set<Path>, p: Path, why: Why)
    requires p !in ps
    ensures SendAll(SendAll(c, ps, why), {p}, why) == SendAll(c, ps + {p}, why)
  {
    FramesStep(ps, p, why);
    assert SendAll(SendAll(c, ps, why), {p}, why).log.lastSent == SendAll(c, ps + {p}, why).log.lastSent;
  }

  lemma SettleStep(c: Coord, ps: set<Path>, p: Path)
    requires p !in ps
    ensures SettleAll(SettleAll(c, ps), {p}) == SettleAll(c, ps + {p})
  {
    assert SettleAll(SettleAll(c, ps), {p}).state == SettleAll(c, ps + {p}).state;
  }

  lemma NothingToSettle(c: Coord)
    ensures SettleAll(c, {}) == c
  {
    assert SettleAll(c, {}).state == c.state;
  }

  lemma NothingToSend(c: Coord, why: Why)
    ensures SendAll(c, {}, why) == c
  {
    assert SendAll(c, {}, why).log.lastSent == c.log.lastSent;
    NoFrames(why);
  }

  lemma NothingToRedispatch(c: Coord, why: Why, rejects: set<Path>)
    ensures RedispatchAll(c, {}, why, rejects) == c
  {
    assert {} * rejects == {} && {} - rejects == {};
    NothingToSettle(c);
    NothingToSend(c, why);
  }

  lemma RedispatchOne(c: Coord, p: Path, why: Why, rejects: set<Path>)
    ensures RedispatchAll(c, {p}, why, rejects) == if p in rejects then SettleAll(c, {p}) else SendAll(c, {p}, why)
  {
    if p in rejects {
      assert {p} * rejects == {p} && {p} - rejects == {};
      NothingToSend(SettleAll(c, {p}), why);
    } else {
      assert {p} * rejects == {} && {p} - rejects == {p};
      NothingToSettle(c);
    }
  }

  lemma SettleCommutes(c: Coord, ps: set<Path>, qs: set<Path>, why: Why)
    ensures SettleAll(SendAll(c, ps, why), qs) == SendAll(SettleAll(c, qs), ps, why)
  {
    hide Frames;
    assert SettleAll(SendAll(c, ps, why), qs).state == SettleAll(c, qs).state;
  }

  lemma RedispatchParts(c: Coord, ps: set<Path>, p: Path, rejects: set<Path>)
    requires p !in ps
    ensures p in rejects ==> (ps + {p}) * rejects == ps * rejects + {p} && (ps + {p}) - rejects == ps - rejects
    ensures p !in rejects ==> (ps + {p}) * rejects == ps * rejects && (ps + {p}) - rejects == (ps - rejects) + {p}
  {
  }

  lemma RedispatchStep(c: Coord, ps: set<Path>, p: Path, why: Why, rejects: set<Path>)
    requires p !in ps
    ensures RedispatchAll(RedispatchAll(c, ps, why, rejects), {p}, why, rejects)
            == RedispatchAll(c, ps + {p}, why, rejects)
  {
    hide SettleAll, SendAll;
    RedispatchOne(RedispatchAll(c, ps, why, rejects), p, why, rejects);
    RedispatchParts(c, ps, p, rejects);
    if p in rejects {
      SettleCommutes(SettleAll(c, ps * rejects), ps - rejects, {p}, why);
      SettleStep(c, ps * rejects, p);
    } else {
      SendStep(SettleAll(c, ps * rejects), ps - rejects, p, why);
    }
  }

  /******* One more item of a death's re-dispatch *******/

  // The outcome of a death's re-dispatch, written out flat for given orphans,
  // given-up items, re-sent orphans and unclaimed items.
  ghost predicate FlatItems(c: Coord, d: Coord, orphans: set<Path>, spent: set<Path>, resent: set<Path>,
                            free: set<Path>, rejects: set<Path>) {
    && d.state.Keys == c.state.Keys
    && (forall p :: p in c.state ==>
          d.state[p] == Item(c.state[p].redispatches + (if p in orphans && p !in spent then 1 else 0),
                             c.state[p].done || p in spent || (p in rejects && (p in resent || p in free))))
    && d.registry == c.registry
    && d.holder == c.holder - orphans
    && d.open == c.open - |spent| - |resent * rejects| - |free * rejects|
    && d.sum == c.sum.(filesFailed := c.sum.filesFailed + |spent| + |resent * rejects| + |free * rejects|)
  }

  ghost predicate FlatLog(c: Coord, d: Coord, resent: set<Path>, free: set<Path>) {
    && d.log.lastSent.Keys == c.log.lastSent.Keys + resent + free
    && (forall p :: p in d.log.lastSent ==>
          d.log.lastSent[p] == if p in resent || p in free then c.log.tick else c.log.lastSent[p])
    && d.log == c.log.(lastSent := d.log.lastSent,
                       sent := c.log.sent + Frames(resent, HolderDied) + Frames(free, UnclaimedAtDeath))
  }

  ghost predicate Flat(c: Coord, d: Coord, orphans: set<Path>, spent: set<Path>, resent: set<Path>, free: set<Path>,
                       rejects: set<Path>) {
    FlatItems(c, d, orphans, spent, resent, free, rejects) && FlatLog(c, d, resent - rejects, free - rejects)
  }

  ghost predicate FlatFor(c: Coord, d: Coord, cfg: Config, dead: set<WorkerId>, live: bool, rejects: set<Path>,
                          ps: set<Path>) {
    var orphans, spent := Orphans(c, dead, ps), Exhausted(c, cfg, dead, ps);
    Flat(c, d, orphans, spent, if live then orphans - spent else {}, if live then Unclaimed(c, ps) else {}, rejects)
  }

  // The same for one best-effort re-dispatch.
  ghost predicate FlatRedispatch(c: Coord, d: Coord, ps: set<Path>, why: Why, rejects: set<Path>) {
    && d.state.Keys == c.state.Keys
    && (forall p :: p in c.state ==> d.state[p] == Item(c.state[p].redispatches, c.state[p].done
                                                        || (p in ps && p in rejects)))
    && d.registry == c.registry && d.holder == c.holder
    && d.open == c.open - |ps * rejects|
    && d.sum == c.sum.(filesFailed := c.sum.filesFailed + |ps * rejects|)
    && d.log.lastSent.Keys == c.log.lastSent.Keys + (ps - rejects)
    && (forall p :: p in d.log.lastSent ==>
          d.log.lastSent[p] == if p in ps && p !in rejects then c.log.tick else c.log.lastSent[p])
    && d.log == c.log.(lastSent := d.log.lastSent, sent := c.log.sent + Frames(ps - rejects, why))
  }

  lemma RedispatchFlat(c: Coord, ps: set<Path>, why: Why, rejects: set<Path>)
    ensures FlatRedispatch(c, RedispatchAll(c, ps, why, rejects), ps, why, rejects)
  {
  }

  // Flat determines the outcome.
  lemma FlatUnique(c: Coord, d: Coord, e: Coord, orphans: set<Path>, spent: set<Path>, resent: set<Path>,
                   free: set<Path>, rejects: set<Path>)
    requires Flat(c, d, orphans, spent, resent, free, rejects) && Flat(c, e, orphans, spent, resent, free, rejects)
    ensures d == e
  {
    assert d.state == e.state;
    assert d.log.lastSent == e.log.lastSent;
  }

  lemma FlatStart(c: Coord, orphans: set<Path>, spent: set<Path>, rejects: set<Path>)
    requires spent <= orphans
    ensures Flat(c, ChargeAll(SettleAll(c.(holder := c.holder - orphans), spent), orphans - spent), orphans, spent, {},
                 {}, rejects)
  {
    assert {} * rejects == {} && {} - rejects == {};
    NoFrames(HolderDied);
    NoFrames(UnclaimedAtDeath);
    hide Frames;
  }

  lemma FramesUnion(ps: set<Path>, qs: set<Path>, why: Why)
    requires ps !! qs
    ensures Frames(ps + qs, why) == Frames(ps, why) + Frames(qs, why)
  {
    var a, b := set q | q in ps :: Sent(q, why), set q | q in qs :: Sent(q, why);
    var c := set q | q in ps + qs :: Sent(q, why);
    assert c == a + b;
    assert a !! b;
  }

  lemma UnionRejects(ps: set<Path>, qs: set<Path>, rejects: set<Path>)
    requires ps !! qs
    ensures |(ps + qs) * rejects| == |ps * rejects| + |qs * rejects|
    ensures (ps + qs) - rejects == (ps - rejects) + (qs - rejects) && (ps - rejects) !! (qs - rejects)
  {
    assert (ps + qs) * rejects == ps * rejects + qs * rejects;
  }

  lemma ItemsMore(c: Coord, d: Coord, e: Coord, orphans: set<Path>, spent: set<Path>, resent: set<Path>,
                  free: set<Path>, rejects: set<Path>, more: set<Path>, why: Why)
    requires FlatItems(c, d, orphans, spent, resent, free, rejects) && FlatRedispatch(d, e, more, why, rejects)
    requires more !! resent && more !! free
    ensures FlatItems(c, e, orphans, spent, resent + more, free, rejects)
    ensures FlatItems(c, e, orphans, spent, resent, free + more, rejects)
  {
    UnionRejects(resent, more, rejects);
    UnionRejects(free, more, rejects);
    hide Frames;
  }

  lemma LogMoreResent(c: Coord, d: Coord, e: Coord, resent: set<Path>, free: set<Path>, more: set<Path>,
                      rejects: set<Path>)
    requires FlatLog(c, d, resent, free) && FlatRedispatch(d, e, more, HolderDied, rejects)
    requires more !! resent && more !! free
    ensures FlatLog(c, e, resent + (more - rejects), free)
  {
    FramesUnion(resent, more - rejects, HolderDied);
    hide Frames;
  }

  lemma LogMoreFree(c: Coord, d: Coord, e: Coord, resent: set<Path>, free: set<Path>, more: set<Path>,
                    rejects: set<Path>)
    requires FlatLog(c, d, resent, free) && FlatRedispatch(d, e, more, UnclaimedAtDeath, rejects)
    requires more !! resent && more !! free
    ensures FlatLog(c, e, resent, free + (more - rejects))
  {
    FramesUnion(free, more - rejects, UnclaimedAtDeath);
    hide Frames;
  }

  lemma FlatResend(c: Coord, d: Coord, orphans: set<Path>, spent: set<Path>, resent: set<Path>, free: set<Path>,
                   rejects: set<Path>, more: set<Path>)
    requires Flat(c, d, orphans, spent, resent, free, rejects) && more !! resent && more !! free
    ensures Flat(c, RedispatchAll(d, more, HolderDied, rejects), orphans, spent, resent + more, free, rejects)
  {
    RedispatchFlat(d, more, HolderDied, rejects);
    hide RedispatchAll, FlatItems, FlatLog, FlatRedispatch;
    var e := RedispatchAll(d, more, HolderDied, rejects);
    ItemsMore(c, d, e, orphans, spent, resent, free, rejects, more, HolderDied);
    LogMoreResent(c, d, e, resent - rejects, free - rejects, more, rejects);
    UnionRejects(resent, more, rejects);
  }

  lemma FlatFree(c: Coord, d: Coord, orphans: set<Path>, spent: set<Path>, resent: set<Path>, free: set<Path>,
                 rejects: set<Path>, more: set<Path>)
    requires Flat(c, d, orphans, spent, resent, free, rejects) && more !! resent && more !! free
    ensures Flat(c, RedispatchAll(d, more, UnclaimedAtDeath, rejects), orphans, spent, resent, free + more, rejects)
  {
    RedispatchFlat(d, more, UnclaimedAtDeath, rejects);
    hide RedispatchAll, FlatItems, FlatLog, FlatRedispatch;
    var e := RedispatchAll(d, more, UnclaimedAtDeath, rejects);
    ItemsMore(c, d, e, orphans, spent, resent, free, rejects, more, UnclaimedAtDeath);
    LogMoreFree(c, d, e, resent - rejects, free - rejects, more, rejects);
    UnionRejects(free, more, rejects);
  }

  lemma AttributionDisjoint(c: Coord, cfg: Config, dead: set<WorkerId>, ps: set<Path>)
    ensures Orphans(c, dead, ps) !! Unclaimed(c, ps) && Exhausted(c, cfg, dead, ps) <= Orphans(c, dead, ps)
  {
  }

  lemma RedistributeFlat(c: Coord, cfg: Config, dead: set<WorkerId>, live: bool, rejects: set<Path>, ps: set<Path>)
    ensures FlatFor(c, Redistribute(c, cfg, dead, live, rejects, ps), cfg, dead, live, rejects, ps)
  {
    hide Flat, RedispatchAll, ChargeAll, SettleAll, Orphans, Exhausted, Unclaimed;
    AttributionDisjoint(c, cfg, dead, ps);
    var orphans, spent, free := Orphans(c, dead, ps), Exhausted(c, cfg, dead, ps), Unclaimed(c, ps);
    var c1 := ChargeAll(SettleAll(c.(holder := c.holder - orphans), spent), orphans - spent);
    FlatStart(c, orphans, spent, rejects);
    if live {
      var resent := orphans - spent;
      FlatResend(c, c1, orphans, spent, {}, {}, rejects, resent);
      assert {} + resent == resent;
      FlatFree(c, RedispatchAll(c1, resent, HolderDied, rejects), orphans, spent, resent, {}, rejects, free);
      assert {} + free == free;
    }
  }

  // What the loop body does to one path of the state map.
  ghost function RedistributeOne(c: Coord, cfg: Config, dead: set<WorkerId>, live: bool, rejects: set<Path>,
                                 p: Path): Coord
    requires p in c.state
  {
    if c.state[p].done || (p in c.holder && c.holder[p] !in dead) then c
    else if p !in c.holder then (if live then RedispatchAll(c, {p}, UnclaimedAtDeath, rejects) else c)
    else
      var c1 := c.(holder := c.holder - {p});
      if c1.state[p].redispatches >= cfg.redispatchCap then SettleAll(c1, {p})
      else if live then RedispatchAll(ChargeAll(c1, {p}), {p}, HolderDied, rejects)
      else ChargeAll(c1, {p})
  }

  lemma NothingYet(c: Coord, cfg: Config, dead: set<WorkerId>, live: bool, rejects: set<Path>)
    ensures FlatFor(c, c, cfg, dead, live, rejects, {})
  {
    assert Orphans(c, dead, {}) == {} && Unclaimed(c, {}) == {} && Exhausted(c, cfg, dead, {}) == {};
    assert {} * rejects == {} && {} - rejects == {};
    assert c.holder - {} == c.holder;
    NoFrames(HolderDied);
    NoFrames(UnclaimedAtDeath);
    hide Frames;
  }

  ghost predicate IsOrphan(c: Coord, dead: set<WorkerId>, p: Path)
    requires p in c.state
  {
    !c.state[p].done && p in c.holder && c.holder[p] in dead
  }

  lemma AttributionStep(c: Coord, cfg: Config, dead: set<WorkerId>, ps: set<Path>, p: Path)
    requires p in c.state && p !in ps
    ensures p !in Orphans(c, dead, ps) && p !in Unclaimed(c, ps) && p !in Exhausted(c, cfg, dead, ps)
    ensures Exhausted(c, cfg, dead, ps) <= Orphans(c, dead, ps)
    ensures Orphans(c, dead, ps + {p}) == if IsOrphan(c, dead, p) then Orphans(c, dead, ps) + {p}
            else Orphans(c, dead, ps)
    ensures Unclaimed(c, ps + {p}) == if !c.state[p].done && p !in c.holder then Unclaimed(c, ps) + {p}
            else Unclaimed(c, ps)
    ensures Exhausted(c, cfg, dead, ps + {p})
         == if IsOrphan(c, dead, p) && c.state[p].redispatches >= cfg.redispatchCap
            then Exhausted(c, cfg, dead, ps) + {p}
            else Exhausted(c, cfg, dead, ps)
  {
  }

  lemma StepSpent(c: Coord, d: Coord, orphans: set<Path>, spent: set<Path>, resent: set<Path>, free: set<Path>,
                  rejects: set<Path>, p: Path)
    requires Flat(c, d, orphans, spent, resent, free, rejects) && p in c.state
    requires p !in orphans && p !in spent && p !in resent && p !in free
    ensures Flat(c, SettleAll(d.(holder := d.holder - {p}), {p}), orphans + {p}, spent + {p}, resent, free, rejects)
  {
    var e := SettleAll(d.(holder := d.holder - {p}), {p});
    assert e.holder == c.holder - (orphans + {p});
    assert FlatLog(c, e, resent - rejects, free - rejects);
    hide FlatLog;
  }

  lemma StepCharge(c: Coord, d: Coord, orphans: set<Path>, spent: set<Path>, resent: set<Path>, free: set<Path>,
                   rejects: set<Path>, p: Path)
    requires Flat(c, d, orphans, spent, resent, free, rejects) && p in c.state
    requires p !in orphans && p !in spent && p !in resent && p !in free
    ensures Flat(c, ChargeAll(d.(holder := d.holder - {p}), {p}), orphans + {p}, spent, resent, free, rejects)
  {
    var e := ChargeAll(d.(holder := d.holder - {p}), {p});
    assert e.holder == c.holder - (orphans + {p});
    assert FlatLog(c, e, resent - rejects, free - rejects);
    hide FlatLog;
  }

  lemma FlatSeesItem(c: Coord, d: Coord, orphans: set<Path>, spent: set<Path>, resent: set<Path>, free: set<Path>,
                     rejects: set<Path>, p: Path)
    requires Flat(c, d, orphans, spent, resent, free, rejects) && p in c.state
    requires p !in orphans && p !in spent && p !in resent && p !in free
    ensures p in d.state && d.state[p] == c.state[p] && (p in d.holder <==> p in c.holder)
            && (p in d.holder ==> d.holder[p] == c.holder[p])
  {
  }

  lemma FlatStep(c: Coord, d: Coord, cfg: Config, dead: set<WorkerId>, live: bool, rejects: set<Path>, ps: set<Path>,
                 p: Path)
    requires FlatFor(c, d, cfg, dead, live, rejects, ps) && p in c.state && p !in ps
    ensures p in d.state
    ensures FlatFor(c, RedistributeOne(d, cfg, dead, live, rejects, p), cfg, dead, live, rejects, ps + {p})
  {
    hide Flat, Orphans, Exhausted, Unclaimed, RedispatchAll, SettleAll, ChargeAll, IsOrphan, RedistributeOne;
    AttributionStep(c, cfg, dead, ps, p);
    AttributionDisjoint(c, cfg, dead, ps);
    var orphans, spent := Orphans(c, dead, ps), Exhausted(c, cfg, dead, ps);
    var resent, free := if live then orphans - spent else {}, if live then Unclaimed(c, ps) else {};
    FlatSeesItem(c, d, orphans, spent, resent, free, rejects, p);
    RedistributeOneCases(c, d, cfg, dead, live, rejects, p);
    if IsOrphan(c, dead, p) {
      FlatStepOrphan(c, d, cfg, orphans, spent, live, resent, free, rejects, p);
      OneLess(orphans, spent, p);
    } else if !c.state[p].done && p !in c.holder && live {
      FreshOne(resent, p);
      FreshOne(free, p);
      FlatFree(c, d, orphans, spent, resent, free, rejects, {p});
    }
  }

  lemma FreshOne(ps: set<Path>, p: Path)
    requires p !in ps
    ensures {p} !! ps
  {
  }

  lemma OneLess(ps: set<Path>, qs: set<Path>, p: Path)
    requires p !in qs && p !in ps
    ensures ps + {p} - (qs + {p}) == ps - qs && ps + {p} - qs == ps - qs + {p}
  {
  }

  lemma RedistributeOneCases(c: Coord, d: Coord, cfg: Config, dead: set<WorkerId>, live: bool, rejects: set<Path>,
                             p: Path)
    requires p in c.state && p in d.state && d.state[p] == c.state[p]
    requires (p in d.holder <==> p in c.holder) && (p in d.holder ==> d.holder[p] == c.holder[p])
    ensures var e := RedistributeOne(d, cfg, dead, live, rejects, p);
            var d1 := d.(holder := d.holder - {p});
            if IsOrphan(c, dead, p) then
              p in c.holder && !c.state[p].done &&
              e == (if c.state[p].redispatches >= cfg.redispatchCap then SettleAll(d1, {p})
                    else if live then RedispatchAll(ChargeAll(d1, {p}), {p}, HolderDied, rejects)
                    else ChargeAll(d1, {p}))
            else
              e == (if !c.state[p].done && p !in c.holder && live then RedispatchAll(d, {p}, UnclaimedAtDeath, rejects)
                    else d)
  {
    hide RedispatchAll, SettleAll, ChargeAll;
  }

  lemma FlatStepOrphan(c: Coord, d: Coord, cfg: Config, orphans: set<Path>, spent: set<Path>, live: bool,
                       resent: set<Path>, free: set<Path>, rejects: set<Path>, p: Path)
    requires Flat(c, d, orphans, spent, resent, free, rejects) && p in c.state
    requires p !in orphans && p !in spent && p !in resent && p !in free
    ensures var d1 := d.(holder := d.holder - {p});
            && Flat(c, SettleAll(d1, {p}), orphans + {p}, spent + {p}, resent, free, rejects)
            && Flat(c, ChargeAll(d1, {p}), orphans + {p}, spent, resent, free, rejects)
            && Flat(c, RedispatchAll(ChargeAll(d1, {p}), {p}, HolderDied, rejects), orphans + {p}, spent, resent + {p},
                    free, rejects)
  {
    hide Flat, RedispatchAll, SettleAll, ChargeAll;
    StepSpent(c, d, orphans, spent, resent, free, rejects, p);
    StepCharge(c, d, orphans, spent, resent, free, rejects, p);
    FlatResend(c, ChargeAll(d.(holder := d.holder - {p}), {p}), orphans + {p}, spent, resent, free, rejects, {p});
  }

  /******* One more tombstone *******/

  lemma PathsOfMore(es: set<Entry>, e: Entry)
    ensures PathsOf(es + {e}) == PathsOf(es) + {e.path} && PathsOf({e}) == {e.path}
  {
  }

  lemma ReopenStates(c: Coord, es: set<Entry>, e: Entry)
    ensures Reopen(Reopen(c, es), {e}).state == Reopen(c, es + {e}).state
  {
    PathsOfMore(es, e);
    hide PathsOf, EventSum;
  }

  lemma EventSumMore(es: set<Entry>, e: Entry)
    requires e !in es
    ensures EventSum(es + {e}) == EventSum(es) + EventSum({e})
  {
    EventSumTake(es + {e}, e);
    assert es + {e} - {e} == es;
    EventSumTake({e}, e);
    assert {e} - {e} == {};
    assert EventSum({}) == 0;
  }

  lemma ReopenStep(c: Coord, es: set<Entry>, e: Entry)
    requires e !in es
    ensures Reopen(Reopen(c, es), {e}) == Reopen(c, es + {e})
  {
    ReopenStates(c, es, e);
    EventSumMore(es, e);
    hide PathsOf, EventSum;
  }

  lemma NothingToReopen(c: Coord)
    ensures Reopen(c, {}) == c && Tombstone(c, {}) == c
  {
    assert PathsOf({}) == {};
    assert Reopen(c, {}).state == c.state;
    assert EntriesOf(c.registry, {}) == {};
    assert Bury(c.registry, {}) == c.registry;
  }

  lemma {:induction false} ReopenMany(c: Coord, es: set<Entry>, fs: set<Entry>)
    requires es !! fs
    ensures Reopen(Reopen(c, es), fs) == Reopen(c, es + fs)
    decreases |fs|
  {
    if fs == {} {
      NothingToReopen(Reopen(c, es));
      assert es + fs == es;
    } else {
      var f :| f in fs;
      ReopenStep(Reopen(c, es), fs - {f}, f);
      ReopenMany(c, es, fs - {f});
      ReopenStep(c, es + (fs - {f}), f);
      assert fs - {f} + {f} == fs && es + (fs - {f}) + {f} == es + fs;
    }
  }

  lemma SplitEntries(registry: map<WorkerId, Worker>, ws: set<WorkerId>, w: WorkerId)
    requires w !in ws && w in registry
    ensures EntriesOf(Bury(registry, ws), {w}) == EntriesOf(registry, {w})
    ensures EntriesOf(registry, ws + {w}) == EntriesOf(registry, ws) + EntriesOf(registry, {w})
    ensures EntriesOf(registry, ws) !! EntriesOf(registry, {w})
    ensures Bury(Bury(registry, ws), {w}) == Bury(registry, ws + {w})
  {
    forall e ensures e in EntriesOf(registry, ws) ==> e.worker in ws {}
    forall e ensures e in EntriesOf(registry, {w}) ==> e.worker == w {}
  }

  // A tombstone is a reopening, a burial and a count.
  ghost function Mark(c: Coord, r: map<WorkerId, Worker>, n: nat): Coord {
    c.(registry := r, sum := c.sum.(workersDied := c.sum.workersDied + n))
  }

  lemma ReopenMarked(c: Coord, r: map<WorkerId, Worker>, n: nat, es: set<Entry>)
    ensures Reopen(Mark(c, r, n), es) == Mark(Reopen(c, es), r, n)
  {
  }

  lemma TombstoneStep(c: Coord, ws: set<WorkerId>, w: WorkerId)
    requires w !in ws && w in c.registry
    ensures Tombstone(Tombstone(c, ws), {w}) == Tombstone(c, ws + {w})
  {
    hide EntriesOf, Bury, PathsOf, EventSum, Reopen;
    var es, fs := EntriesOf(c.registry, ws), EntriesOf(c.registry, {w});
    SplitEntries(c.registry, ws, w);
    ReopenMany(c, es, fs);
    ReopenMarked(Reopen(c, es), Bury(c.registry, ws), |ws|, fs);
    TombstoneMarks(c, ws);
    TombstoneMarks(Tombstone(c, ws), {w});
    TombstoneMarks(c, ws + {w});
    assert |ws + {w}| == |ws| + |{w}|;
    hide Tombstone;
  }

  lemma TombstoneMarks(c: Coord, ws: set<WorkerId>)
    ensures Tombstone(c, ws) == Mark(Reopen(c, EntriesOf(c.registry, ws)), Bury(c.registry, ws), |ws|)
  {
  }
}
