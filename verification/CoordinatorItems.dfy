// What each part of a pass does to one item: the frame of the tick, the
// deadline sweep, and the abort check. Stated in the coordinator's maps alone.
module CoordinatorItems {
  import opened Protocol
  import opened CoordinatorSpec
  import opened CoordinatorLaws
  import opened CoordinatorPasses
  import opened CoordinatorRuns
  import opened CoordinatorEffects

  ghost predicate Overdue(c: Coord, cfg: Config, t: int, w: WorkerId) {
    w in c.registry && c.registry[w].alive && t - c.registry[w].lastSeen > cfg.deathThreshold
  }

  ghost predicate Punctual(c: Coord, cfg: Config, t: int, w: WorkerId) {
    w in c.registry && c.registry[w].alive && t - c.registry[w].lastSeen <= cfg.deathThreshold
  }

  // The frames a pass has sent for an item, by reason.
  ghost function Sends(c: Coord, d: Coord, p: Path, why: Why): int {
    d.log.sent[Sent(p, why)] as int - c.log.sent[Sent(p, why)] as int
  }

  /******* One item in a re-dispatch *******/

  // One best-effort re-dispatch: a refused send settles the item as failed.
  lemma RedispatchItem(c: Coord, ps: set<Path>, why: Why, rejects: set<Path>, p: Path, y: Why)
    requires p in c.state
    ensures var d := RedispatchAll(c, ps, why, rejects);
            && p in d.state && d.state[p] == Item(c.state[p].redispatches, c.state[p].done || (p in ps && p in rejects))
            && d.holder == c.holder && d.registry == c.registry
            && Sends(c, d, p, y) == if p in ps && p !in rejects && y == why then 1 else 0
  {
    var d := SettleAll(c, ps * rejects);
    assert d.log == c.log;
    SentCounts(d, ps - rejects, why, p, y);
  }

  /******* The deadline sweep *******/

  // Who holds p, or held it and is overdue.
  ghost predicate Bereft(c: Coord, cfg: Config, t: int, p: Path) {
    p in c.holder && Overdue(c, cfg, t, c.holder[p])
  }

  // A file whose rows are with a worker that is overdue.
  ghost predicate Lost(c: Coord, cfg: Config, t: int, p: Path) {
    exists e :: e in Entries(c.registry) && e.path == p && Overdue(c, cfg, t, e.worker)
  }

  // What a sweep makes of item p: the new item and the frames sent for it.
  datatype Fate = Fate(item: Item, died: nat, unclaimed: nat)

  // Settled and not lost, or held by somebody punctual: nothing happens. An item
  // whose holder is overdue is charged, or given up at the cap. A lost or
  // unheld item goes out uncharged when somebody died. Nothing goes out unless somebody is
  // left, and a refused send settles the item.
  ghost function FateOf(c: Coord, cfg: Config, t: int, rejects: set<Path>, p: Path): Fate
    requires p in c.state
  {
    var item := c.state[p];
    var died := exists w :: Overdue(c, cfg, t, w);
    var left := exists w :: Punctual(c, cfg, t, w);
    var sends := if left && p !in rejects then 1 else 0;
    var refused := left && p in rejects;
    if item.done && !Lost(c, cfg, t, p) then Fate(item, 0, 0)
    else if !item.done && p in c.holder && !Bereft(c, cfg, t, p) then Fate(item, 0, 0)
    else if !item.done && p in c.holder then
      if item.redispatches >= cfg.redispatchCap then Fate(Item(item.redispatches, true), 0, 0)
      else Fate(Item(item.redispatches + 1, refused), sends, 0)
    else if died then Fate(Item(item.redispatches, refused), 0, sends)
    else Fate(item, 0, 0)
  }

  // Every item of every sweep, and who still holds it afterwards.
  lemma SweepItem(c: Coord, cfg: Config, t: int, rejects: set<Path>, p: Path)
    requires Inv(c, cfg) && p in c.state
    ensures var d := Sweep(c, cfg, t, rejects);
            var fate := FateOf(c, cfg, t, rejects, p);
            && p in d.state && d.state[p] == fate.item
            && Sends(c, d, p, HolderDied) == fate.died && Sends(c, d, p, UnclaimedAtDeath) == fate.unclaimed
            && (p in d.holder <==> p in c.holder && !Bereft(c, cfg, t, p))
            && (p in d.holder ==> d.holder[p] == c.holder[p])
  {
    hide Inv, Tombstone, Redistribute, FateOf;
    var dead := Silent(c, cfg, t);
    SilentOverdue(c, cfg, t);
    if dead == {} {
      NobodyDied(c, cfg, t, rejects, p);
    } else {
      var c1 := NoteDeaths(Tombstone(c, dead), dead);
      DeathsKept(c, cfg, t, p);
      LostDone(c, cfg, t, p);
      var w :| w in dead;
      assert Overdue(c, cfg, t, w);
      RedistributeItem(c1, cfg, dead, Live(c1.registry) != {}, rejects, p);
      hide Silent;
      SomebodyDied(c, c1, Sweep(c, cfg, t, rejects), cfg, t, rejects, p);
    }
  }

  lemma SilentOverdue(c: Coord, cfg: Config, t: int)
    ensures forall w :: w in Silent(c, cfg, t) <==> Overdue(c, cfg, t, w)
  {
  }

  lemma LostDone(c: Coord, cfg: Config, t: int, p: Path)
    requires Inv(c, cfg) && p in c.state
    ensures Lost(c, cfg, t, p) ==> c.state[p].done
    ensures Lost(c, cfg, t, p) <==> p in PathsOf(EntriesOf(c.registry, Silent(c, cfg, t)))
    ensures p in c.holder ==> !c.state[p].done
  {
    hide NoDuplicates, RegistryOk, EventSum, OneCreditEach, Budgeted, Gone;
  }

  lemma NobodyDied(c: Coord, cfg: Config, t: int, rejects: set<Path>, p: Path)
    requires Inv(c, cfg) && p in c.state && Silent(c, cfg, t) == {}
    ensures Sweep(c, cfg, t, rejects) == c
    ensures FateOf(c, cfg, t, rejects, p) == Fate(c.state[p], 0, 0) && !Bereft(c, cfg, t, p)
  {
    hide Inv;
    NothingBuried(c);
    SilentOverdue(c, cfg, t);
    hide Silent, Entries;
  }

  lemma NothingBuried(c: Coord)
    ensures Tombstone(c, {}) == c
  {
    assert EntriesOf(c.registry, {}) == {};
    assert PathsOf({}) == {};
    assert Bury(c.registry, {}) == c.registry;
    assert Reopen(c, {}).state == c.state;
  }

  // The state the re-dispatch finds.
  lemma DeathsKept(c: Coord, cfg: Config, t: int, p: Path)
    requires Inv(c, cfg) && p in c.state && Silent(c, cfg, t) != {}
    ensures var dead := Silent(c, cfg, t);
            var d := NoteDeaths(Tombstone(c, dead), dead);
            && p in d.state && d.holder == c.holder && d.log.sent == c.log.sent
            && d.state[p] == Item(c.state[p].redispatches, c.state[p].done && !Lost(c, cfg, t, p))
            && (Live(d.registry) != {} <==> exists w :: Punctual(c, cfg, t, w))
  {
    var dead := Silent(c, cfg, t);
    LostDone(c, cfg, t, p);
    Survivors(c, cfg, t);
    hide Inv, Entries, EntriesOf, Silent, EventSum, PathsOf, Live, Bury;
  }

  lemma Survivors(c: Coord, cfg: Config, t: int)
    ensures Live(Bury(c.registry, Silent(c, cfg, t))) != {} <==> exists w :: Punctual(c, cfg, t, w)
  {
    var r := Bury(c.registry, Silent(c, cfg, t));
    forall w ensures w in Live(r) <==> Punctual(c, cfg, t, w) {}
    if Live(r) != {} {
      var w :| w in Live(r);
    }
    if w :| Punctual(c, cfg, t, w) {
      assert w in Live(r);
    }
  }

  // One item in the re-dispatch by attribution.
  lemma RedistributeItem(c: Coord, cfg: Config, dead: set<WorkerId>, live: bool, rejects: set<Path>, p: Path)
    requires p in c.state
    ensures var d := Redistribute(c, cfg, dead, live, rejects, c.state.Keys);
            var item := c.state[p];
            var orphan := !item.done && p in c.holder && c.holder[p] in dead;
            var spent := orphan && item.redispatches >= cfg.redispatchCap;
            var free := !item.done && p !in c.holder;
            && p in d.state
            && d.state[p] == Item(item.redispatches + (if orphan && !spent then 1 else 0),
                                  item.done || spent || (live && (orphan || free) && p in rejects))
            && (p in d.holder <==> p in c.holder && !orphan) && (p in d.holder ==> d.holder[p] == c.holder[p])
            && Sends(c, d, p, HolderDied) == (if live && orphan && !spent && p !in rejects then 1 else 0)
            && Sends(c, d, p, UnclaimedAtDeath) == (if live && free && p !in rejects then 1 else 0)
  {
    hide RedispatchAll, Bereave, Orphans, Exhausted, Unclaimed, Sends;
    var orphans, spent := Orphans(c, dead, c.state.Keys), Exhausted(c, cfg, dead, c.state.Keys);
    var free := Unclaimed(c, c.state.Keys);
    var c1 := Bereave(c, cfg, dead);
    Attribution(c, cfg, dead, p);
    BereaveItem(c, cfg, dead, p);
    if live {
      var c2 := RedispatchAll(c1, orphans - spent, HolderDied, rejects);
      RedispatchItem(c1, orphans - spent, HolderDied, rejects, p, HolderDied);
      RedispatchItem(c1, orphans - spent, HolderDied, rejects, p, UnclaimedAtDeath);
      RedispatchItem(c2, free, UnclaimedAtDeath, rejects, p, HolderDied);
      RedispatchItem(c2, free, UnclaimedAtDeath, rejects, p, UnclaimedAtDeath);
      var d := RedispatchAll(c2, free, UnclaimedAtDeath, rejects);
      RedistributeIs(c, cfg, dead, live, rejects);
      SendsAdd(c, c1, c2, d, p, HolderDied);
      SendsAdd(c, c1, c2, d, p, UnclaimedAtDeath);
    } else {
      RedistributeIs(c, cfg, dead, live, rejects);
    }
  }

  lemma Attribution(c: Coord, cfg: Config, dead: set<WorkerId>, p: Path)
    requires p in c.state
    ensures p in Orphans(c, dead, c.state.Keys) <==> !c.state[p].done && p in c.holder && c.holder[p] in dead
    ensures p in Exhausted(c, cfg, dead, c.state.Keys)
            <==> p in Orphans(c, dead, c.state.Keys) && c.state[p].redispatches >= cfg.redispatchCap
    ensures p in Unclaimed(c, c.state.Keys) <==> !c.state[p].done && p !in c.holder
  {
  }

  lemma BereaveItem(c: Coord, cfg: Config, dead: set<WorkerId>, p: Path)
    requires p in c.state
    ensures var d := Bereave(c, cfg, dead);
            var orphan := p in Orphans(c, dead, c.state.Keys);
            var spent := p in Exhausted(c, cfg, dead, c.state.Keys);
            && p in d.state
            && d.state[p] == Item(c.state[p].redispatches + (if orphan && !spent then 1 else 0),
                                  c.state[p].done || spent)
            && (p in d.holder <==> p in c.holder && !orphan) && (p in d.holder ==> d.holder[p] == c.holder[p])
            && Sends(c, d, p, HolderDied) == 0 && Sends(c, d, p, UnclaimedAtDeath) == 0
  {
    hide Orphans, Exhausted;
  }

  lemma RedistributeIs(c: Coord, cfg: Config, dead: set<WorkerId>, live: bool, rejects: set<Path>)
    ensures Redistribute(c, cfg, dead, live, rejects, c.state.Keys)
         == (if !live then Bereave(c, cfg, dead)
             else RedispatchAll(RedispatchAll(Bereave(c, cfg, dead),
                                              Orphans(c, dead, c.state.Keys) - Exhausted(c, cfg, dead, c.state.Keys),
                                              HolderDied, rejects),
                                Unclaimed(c, c.state.Keys), UnclaimedAtDeath, rejects))
  {
    hide RedispatchAll, Orphans, Exhausted, Unclaimed, ChargeAll, SettleAll;
  }

  lemma SendsAdd(a: Coord, b: Coord, c: Coord, d: Coord, p: Path, why: Why)
    ensures Sends(a, d, p, why) == Sends(a, b, p, why) + Sends(b, c, p, why) + Sends(c, d, p, why)
  {
  }

  lemma SomebodyDied(c: Coord, c1: Coord, d: Coord, cfg: Config, t: int, rejects: set<Path>, p: Path)
    requires p in c.state && p in c1.state && p in d.state && exists w :: Overdue(c, cfg, t, w)
    requires c1.holder == c.holder && c1.log.sent == c.log.sent
    requires c1.state[p] == Item(c.state[p].redispatches, c.state[p].done && !Lost(c, cfg, t, p))
    requires Lost(c, cfg, t, p) ==> c.state[p].done && p !in c.holder
    requires var item, left := c1.state[p], exists w :: Punctual(c, cfg, t, w);
             var orphan := !item.done && Bereft(c, cfg, t, p);
             var spent := orphan && item.redispatches >= cfg.redispatchCap;
             var free := !item.done && p !in c.holder;
             && d.state[p] == Item(item.redispatches + (if orphan && !spent then 1 else 0),
                                   item.done || spent || (left && (orphan || free) && p in rejects))
             && Sends(c1, d, p, HolderDied) == (if left && orphan && !spent && p !in rejects then 1 else 0)
             && Sends(c1, d, p, UnclaimedAtDeath) == (if left && free && p !in rejects then 1 else 0)
    ensures var fate := FateOf(c, cfg, t, rejects, p);
            && d.state[p] == fate.item
            && Sends(c, d, p, HolderDied) == fate.died && Sends(c, d, p, UnclaimedAtDeath) == fate.unclaimed
  {
    hide Lost, Overdue, Punctual;
  }

  /******* The frame of the tick *******/

  ghost predicate GoneFor(c: Coord, w: WorkerId) {
    w in c.registry && !c.registry[w].alive
  }

  ghost predicate Here(c: Coord, w: WorkerId) {
    w in c.registry && c.registry[w].alive
  }

  // What a frame makes of item p: the new item, who holds it now, and the reason
  // for which it went out once more.
  datatype Turn = Turn(item: Item, holder: Option<WorkerId>, sent: Option<Why>)

  ghost function HolderOf(c: Coord, p: Path): Option<WorkerId> {
    if p in c.holder then Some(c.holder[p]) else None
  }

  // A re-send of p that is refused settles it.
  ghost function Resent(item: Item, holder: Option<WorkerId>, why: Why, refused: bool): Turn {
    if refused then Turn(item.(done := true), holder, None) else Turn(item, holder, Some(why))
  }

  // Only frames about an open item p matter to it: a result and a claim by a
  // worker that is not gone, a claim by one that is, and its holder's goodbye.
  ghost function TurnOf(c: Coord, cfg: Config, frame: Option<Frame>, rejects: set<Path>, p: Path): Turn
    requires p in c.state
  {
    var item, holder := c.state[p], HolderOf(c, p);
    var same := Turn(item, holder, None);
    if item.done then same
    else
      match frame
      case Some(Result(q, n, w)) =>
        if q != p || GoneFor(c, w) then same
        else if n == -2 && item.redispatches < cfg.redispatchCap then
          Resent(Item(item.redispatches + 1, false), None, StoreFault, p in rejects)
        else Turn(item.(done := true), None, None)
      case Some(Claim(q, w)) =>
        if q != p then same
        else if !GoneFor(c, w) then Turn(item, Some(w), None)
        else if holder == None && exists u :: Here(c, u) then Resent(item, None, ClaimedByGone, p in rejects)
        else same
      case Some(Bye(w)) =>
        if !Here(c, w) || holder != Some(w) then same
        else if exists u :: u != w && Here(c, u) then Resent(item, None, HolderDeparted, p in rejects)
        else Turn(item, None, None)
      case _ => same
  }

  ghost predicate Took(c: Coord, d: Coord, p: Path, turn: Turn)
    requires p in c.state
  {
    && p in d.state && d.state[p] == turn.item && HolderOf(d, p) == turn.holder
    && forall y :: Sends(c, d, p, y) == if turn.sent == Some(y) then 1 else 0
  }

  // Every item at every tick.
  lemma ReceiveItem(c: Coord, cfg: Config, at: int, frame: Option<Frame>, rejects: set<Path>, p: Path)
    requires Inv(c, cfg) && p in c.state
    ensures Took(c, Receive(c, cfg, at, frame, rejects), p, TurnOf(c, cfg, frame, rejects, p))
  {
    hide Inv, Took, OnResult, OnClaim, MarkDeparted;
    match frame
    case Some(Result(q, n, w)) => ResultItem(c, cfg, at, q, n, w, rejects, p);
    case Some(Claim(q, w)) => ClaimItem(c, cfg, at, q, w, rejects, p);
    case Some(Bye(w)) => ByeItem(c, cfg, w, rejects, p);
    case _ => Untouched(c, p);
  }

  lemma Untouched(c: Coord, p: Path)
    requires p in c.state
    ensures Took(c, c, p, Turn(c.state[p], HolderOf(c, p), None))
  {
  }

  // Re-sending the items of ps, seen from item p.
  lemma ResentItem(c: Coord, d: Coord, ps: set<Path>, why: Why, rejects: set<Path>, p: Path)
    requires p in c.state && p in d.state && d.log.sent == c.log.sent
    ensures var item, holder := d.state[p], HolderOf(d, p);
            Took(c, RedispatchAll(d, ps, why, rejects), p,
                 if p in ps then Resent(item, holder, why, p in rejects) else Turn(item, holder, None))
  {
    forall y ensures Sends(c, RedispatchAll(d, ps, why, rejects), p, y)
        == Sends(d, RedispatchAll(d, ps, why, rejects), p, y) {}
    forall y {:trigger Sends(d, RedispatchAll(d, ps, why, rejects), p, y)}
      ensures Sends(d, RedispatchAll(d, ps, why, rejects), p, y)
           == if p in ps && p !in rejects && y == why then 1 else 0
    {
      RedispatchItem(d, ps, why, rejects, p, y);
    }
    RedispatchItem(d, ps, why, rejects, p, why);
    hide RedispatchAll, Sends;
  }

  lemma TookSame(c: Coord, d: Coord, p: Path)
    requires p in c.state && d.state == c.state && d.holder == c.holder && d.log.sent == c.log.sent
    ensures Took(c, d, p, Turn(c.state[p], HolderOf(c, p), None))
  {
  }

  lemma TookFrom(c: Coord, b: Coord, d: Coord, p: Path, turn: Turn)
    requires p in c.state && p in b.state && b.log.sent == c.log.sent && Took(b, d, p, turn)
    ensures Took(c, d, p, turn)
  {
    forall y ensures Sends(c, d, p, y) == Sends(b, d, p, y) {}
  }

  lemma ResultDropped(c: Coord, cfg: Config, at: int, q: Path, n: int, w: WorkerId, rejects: set<Path>)
    requires GoneFor(c, w) || q !in Open(c.state)
    ensures OnResult(c, cfg, at, q, n, w, rejects) == Touch(c, w, at)
  {
    hide Outcome;
  }

  // A result that counts for the open item q.
  lemma ResultTaken(c: Coord, cfg: Config, at: int, q: Path, n: int, w: WorkerId, rejects: set<Path>) returns (d: Coord)
    requires !GoneFor(c, w) && q in Open(c.state)
    ensures d.state == c.state && d.holder == c.holder - {q} && d.log == c.log && w in d.registry
    ensures Live(d.registry) != {}
    ensures OnResult(c, cfg, at, q, n, w, rejects) == Outcome(d, cfg, q, n, w, rejects)
  {
    hide Outcome;
    d := Touch(c, w, at).(holder := c.holder - {q});
    assert w in Live(d.registry);
  }

  lemma CreditTook(c: Coord, q: Path, n: int, w: WorkerId, p: Path)
    requires q in c.state && w in c.registry && p in c.state
    ensures Took(c, Credit(c, q, n, w), p,
                 Turn(if p == q then c.state[p].(done := true) else c.state[p], HolderOf(c, p), None))
  {
  }

  lemma SettleTook(c: Coord, q: Path, p: Path)
    requires q in c.state && p in c.state
    ensures Took(c, SettleAll(c, {q}), p,
                 Turn(if p == q then c.state[p].(done := true) else c.state[p], HolderOf(c, p), None))
  {
  }

  lemma RetryTook(c: Coord, q: Path, rejects: set<Path>, p: Path)
    requires q in c.state && p in c.state
    ensures var item := c.state[p];
            Took(c, RedispatchAll(ChargeAll(c, {q}), {q}, StoreFault, rejects), p,
                 if p == q then Resent(item.(redispatches := item.redispatches + 1), HolderOf(c, p), StoreFault,
                                       p in rejects)
                 else Turn(item, HolderOf(c, p), None))
  {
    ResentItem(c, ChargeAll(c, {q}), {q}, StoreFault, rejects, p);
    hide RedispatchAll, Took;
  }

  lemma OutcomeTook(c: Coord, cfg: Config, q: Path, n: int, w: WorkerId, rejects: set<Path>, p: Path)
    requires q in Open(c.state) && q !in c.holder && w in c.registry && Live(c.registry) != {} && p in c.state
    ensures var item := c.state[p];
            Took(c, Outcome(c, cfg, q, n, w, rejects), p,
                 if p != q then Turn(item, HolderOf(c, p), None)
                 else if n == -2 && item.redispatches < cfg.redispatchCap then
                   Resent(Item(item.redispatches + 1, false), None, StoreFault, p in rejects)
                 else Turn(item.(done := true), None, None))
  {
    RetryTook(c, q, rejects, p);
    CreditTook(c, q, n, w, p);
    SettleTook(c, q, p);
    hide Took, RedispatchAll, ChargeAll, SettleAll, Credit, Live;
  }

  lemma ResultItem(c: Coord, cfg: Config, at: int, q: Path, n: int, w: WorkerId, rejects: set<Path>, p: Path)
    requires Inv(c, cfg) && p in c.state
    ensures Took(c, OnResult(c, cfg, at, q, n, w, rejects), p, TurnOf(c, cfg, Some(Result(q, n, w)), rejects, p))
  {
    OpenMember(c.state, q);
    hide Inv, Took, OnResult, Outcome, Touch, Live, Open;
    if GoneFor(c, w) || q !in Open(c.state) {
      ResultDropped(c, cfg, at, q, n, w, rejects);
      TouchPlain(c, w, at);
      TookSame(c, Touch(c, w, at), p);
    } else {
      var b := ResultTaken(c, cfg, at, q, n, w, rejects);
      OutcomeTook(b, cfg, q, n, w, rejects, p);
      assert p != q ==> HolderOf(b, p) == HolderOf(c, p);
      DoneUnheld(c, cfg, p);
      TookFrom(c, b, OnResult(c, cfg, at, q, n, w, rejects), p, TurnOf(c, cfg, Some(Result(q, n, w)), rejects, p));
    }
  }

  lemma TouchPlain(c: Coord, w: WorkerId, at: int)
    ensures Touch(c, w, at) == c.(registry := Touch(c, w, at).registry)
  {
  }

  lemma DoneUnheld(c: Coord, cfg: Config, p: Path)
    requires Inv(c, cfg)
    ensures p in c.holder ==> p in c.state && !c.state[p].done
  {
    hide Core;
  }

  lemma ClaimPlain(c: Coord, cfg: Config, at: int, q: Path, w: WorkerId, rejects: set<Path>)
    requires Inv(c, cfg)
    ensures var d := OnClaim(c, at, q, w, rejects);
            var c1 := c.(log := c.log.(goneClaims := c.log.goneClaims + multiset{q}));
            if !GoneFor(c, w) then
              && d.state == c.state && d.log == c.log
              && d.holder == if q in Open(c.state) then c.holder[q := w] else c.holder
            else if q in Open(c.state) && q !in c.holder && exists u :: Here(c, u) then
              d == RedispatchAll(c1, {q}, ClaimedByGone, rejects)
            else d == c1
  {
    HeldIffPresent(c, cfg, q);
    SomebodyHere(c);
    TouchPlain(c, w, at);
    hide Inv, RedispatchAll, Touch, Live, HeldByLive, Open, Here;
  }

  lemma ClaimItem(c: Coord, cfg: Config, at: int, q: Path, w: WorkerId, rejects: set<Path>, p: Path)
    requires Inv(c, cfg) && p in c.state
    ensures Took(c, OnClaim(c, at, q, w, rejects), p, TurnOf(c, cfg, Some(Claim(q, w)), rejects, p))
  {
    hide Inv, RedispatchAll, OnClaim, Open, Here, Took, Resent, HolderOf, GoneFor;
    var c1 := c.(log := c.log.(goneClaims := c.log.goneClaims + multiset{q}));
    var d := OnClaim(c, at, q, w, rejects);
    ClaimPlain(c, cfg, at, q, w, rejects);
    OpenMember(c.state, q);
    DoneUnheld(c, cfg, p);
    UnheldBy(c, p);
    if !GoneFor(c, w) {
      HeldTook(c, d, q, w, p);
    } else if q in Open(c.state) && q !in c.holder && exists u :: Here(c, u) {
      ResentItem(c, c1, {q}, ClaimedByGone, rejects, p);
      UnheldBy(c1, p);
    } else {
      TookSame(c, c1, p);
    }
  }

  lemma UnheldBy(c: Coord, p: Path)
    ensures HolderOf(c, p) == None <==> p !in c.holder
    ensures p in c.holder ==> HolderOf(c, p) == Some(c.holder[p])
  {
  }

  lemma HeldTook(c: Coord, d: Coord, q: Path, w: WorkerId, p: Path)
    requires p in c.state && d.state == c.state && d.log == c.log
    requires d.holder == if q in Open(c.state) then c.holder[q := w] else c.holder
    ensures Took(c, d, p, Turn(c.state[p], if p == q && !c.state[p].done then Some(w) else HolderOf(c, p), None))
  {
  }

  lemma SomebodyHere(c: Coord)
    ensures Live(c.registry) != {} <==> exists u :: Here(c, u)
  {
    if Live(c.registry) != {} {
      var u :| u in Live(c.registry);
      assert Here(c, u);
    }
    if u :| Here(c, u) {
      assert u in Live(c.registry);
    }
  }

  lemma OthersHere(c: Coord, w: WorkerId)
    requires w in c.registry
    ensures Live(c.registry[w := c.registry[w].(alive := false, departed := true)]) != {}
            <==> exists u :: u != w && Here(c, u)
  {
    var r := c.registry[w := c.registry[w].(alive := false, departed := true)];
    if Live(r) != {} {
      var u :| u in Live(r);
      assert u != w && Here(c, u);
    }
    if u :| u != w && Here(c, u) {
      assert u in Live(r);
    }
  }

  lemma ByePlain(c: Coord, w: WorkerId, rejects: set<Path>)
    requires Here(c, w)
    ensures var d := MarkDeparted(c, w, rejects);
            var c1 := c.(registry := c.registry[w := c.registry[w].(alive := false, departed := true)],
                         holder := c.holder - HeldBy(c, w));
            d == if exists u :: u != w && Here(c, u)
                 then RedispatchAll(c1, HeldBy(c, w) * Open(c.state), HolderDeparted, rejects) else c1
  {
    OthersHere(c, w);
    hide RedispatchAll, Live, HeldBy, Open;
  }

  lemma ByeItem(c: Coord, cfg: Config, w: WorkerId, rejects: set<Path>, p: Path)
    requires Inv(c, cfg) && p in c.state
    ensures Took(c, MarkDeparted(c, w, rejects), p, TurnOf(c, cfg, Some(Bye(w)), rejects, p))
  {
    hide Inv, RedispatchAll, MarkDeparted, Open, Here, Took, Resent, HolderOf, HeldBy;
    DoneUnheld(c, cfg, p);
    UnheldBy(c, p);
    if Here(c, w) {
      OpenMember(c.state, p);
      HeldMember(c, w, p);
      HereMember(c, w);
      ByePlain(c, w, rejects);
      var c1 := c.(registry := c.registry[w := c.registry[w].(alive := false, departed := true)],
                   holder := c.holder - HeldBy(c, w));
      ReleasedTook(c, c1, HeldBy(c, w), p);
      if exists u :: u != w && Here(c, u) {
        ResentItem(c, c1, HeldBy(c, w) * Open(c.state), HolderDeparted, rejects, p);
      }
    } else {
      ByeIgnored(c, w, rejects);
      TookSame(c, c, p);
    }
  }

  lemma HereMember(c: Coord, w: WorkerId)
    requires Here(c, w)
    ensures w in c.registry
  {
  }

  lemma HeldMember(c: Coord, w: WorkerId, p: Path)
    ensures p in HeldBy(c, w) <==> p in c.holder && c.holder[p] == w
  {
  }

  lemma ByeIgnored(c: Coord, w: WorkerId, rejects: set<Path>)
    requires !Here(c, w)
    ensures MarkDeparted(c, w, rejects) == c
  {
  }

  lemma ReleasedTook(c: Coord, d: Coord, ps: set<Path>, p: Path)
    requires p in c.state && d.state == c.state && d.log == c.log && d.holder == c.holder - ps
    ensures HolderOf(d, p) == (if p in ps then None else HolderOf(c, p))
    ensures Took(c, d, p, Turn(c.state[p], HolderOf(d, p), None))
  {
  }

  /******* The end of the pass *******/

  // A pass with a live worker left never gives up, and one that left nobody
  // behind does: the loop goes on exactly while an item is open and somebody is live, or
  // nobody has shown up yet and the threshold has not passed since the start.
  lemma OpenIsCounted(c: Coord, cfg: Config)
    requires Inv(c, cfg)
    ensures c.open == |Open(c.state)| && (c.open > 0 <==> Open(c.state) != {})
  {
    hide Entries, NoDuplicates, RegistryOk, EventSum, OneCreditEach, Budgeted, Gone, HolderOk;
  }

  lemma PassEnds(c: Coord, cfg: Config, start: int, inp: Input)
    requires Inv(c, cfg)
    ensures var d := Pass(c, cfg, start, inp);
            && (d.open > 0 <==> Open(d.state) != {} && (Live(d.registry) != {}
                                || (d.registry == map[] && inp.t - start <= cfg.deathThreshold)))
            && (d.open > 0 ==> d == Swept(c, cfg, inp) && d.open == |Open(d.state)|)
            && d.state == Swept(c, cfg, inp).state && d.holder == Swept(c, cfg, inp).holder
            && (d.open == 0 ==> d.sum.filesFailed == Swept(c, cfg, inp).sum.filesFailed + |Open(d.state)|)
  {
    hide Inv, Swept, Entries, MayCredit, Open, Heard, Bury, Silent;
    SweptKeeps(c, cfg, inp);
    OpenIsCounted(Swept(c, cfg, inp), cfg);
    EmptyRegistry(Swept(c, cfg, inp).registry);
    hide Live;
  }

  lemma EmptyRegistry(registry: map<WorkerId, Worker>)
    ensures registry == map[] ==> Live(registry) == {}
  {
  }
}
