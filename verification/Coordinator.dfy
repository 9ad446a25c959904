// run_coordinator as an object: the same structures, updated in place in the
// same order. Each method is proved to do exactly what its function in
// CoordinatorSpec says; Run adds the registration gate and terminates.
module Coordinator {
  import opened Protocol
  import opened CoordinatorSpec
  import opened CoordinatorLaws
  import opened CoordinatorPasses
  import opened CoordinatorRuns
  import opened CoordinatorSteps
  import opened CoordinatorCredits

  datatype Outcome = Finished(summary: Summary) | DispatchThrew

  lemma CountsNone(registry: map<WorkerId, Worker>)
    ensures |Live(registry) - registry.Keys| == 0
  {
    assert Live(registry) - registry.Keys == {};
  }

  lemma CountsOne(registry: map<WorkerId, Worker>, todo: set<WorkerId>, w: WorkerId)
    requires w in todo && todo <= registry.Keys
    ensures |Live(registry) - (todo - {w})| == |Live(registry) - todo| + if registry[w].alive then 1 else 0
  {
    assert Live(registry) - (todo - {w}) == (Live(registry) - todo) + if registry[w].alive then {w} else {};
  }

  class Dispatcher {
    const cfg: Config
    const items: seq<Path>
    var state: map<Path, Item>
    var registry: map<WorkerId, Worker>
    var holder: map<Path, WorkerId>
    var open: int
    var sum: Summary
    ghost var log: Log

    ghost function Model(): Coord
      reads this
    {
      Coord(state, registry, holder, open, sum, log)
    }

    constructor (items: seq<Path>, cfg: Config)
      ensures Model() == Fresh(items) && this.items == items && this.cfg == cfg
    {
      this.cfg := cfg;
      this.items := items;
      this.registry := map[];
      this.holder := map[];
      this.sum := Summary(0, 0, 0, 0);
      this.log := Fresh(items).log;
      new;
      state := map[];
      for i := 0 to |items|
        invariant state == map p | p in items[..i] :: Item(0, false)
        invariant registry == map[] && holder == map[] && sum == Summary(0, 0, 0, 0) && log == Fresh(items).log
      {
        if items[i] !in state {
          state := state[items[i] := Item(0, false)];
        }
        assert items[..i + 1] == items[..i] + [items[i]];
      }
      open := |state|;
      assert items[..|items|] == items;
      assert state.Keys == set p | p in items;
      assert |state| == |state.Keys|;
    }

    method Touch(w: WorkerId, now: int) returns (ok: bool)
      modifies this`registry
      ensures Model() == CoordinatorSpec.Touch(old(Model()), w, now)
      ensures ok == Touched(old(Model()), w)
    {
      ok := true;
      if w !in registry {
        registry := registry[w := Worker(now, true, false, [])];
      } else if !registry[w].alive {
        ok := false;
      } else {
        registry := registry[w := registry[w].(lastSeen := now)];
      }
    }

    method CountLive() returns (live: nat)
      ensures live == |Live(registry)|
    {
      hide *;
      live := 0;
      var todo := registry.Keys;
      CountsNone(registry);
      while todo != {}
        invariant todo <= registry.Keys && live == |Live(registry) - todo|
        decreases todo
      {
        var w :| w in todo;
        CountsOne(registry, todo, w);
        todo := todo - {w};
        if registry[w].alive {
          live := live + 1;
        }
      }
      assert Live(registry) - todo == Live(registry);
    }

    method Settle(p: Path)
      requires p in state
      modifies this`state, this`open, this`sum
      ensures Model() == SettleAll(old(Model()), {p})
    {
      state := state[p := state[p].(done := true)];
      open := open - 1;
      sum := sum.(filesFailed := sum.filesFailed + 1);
      assert state == SettleAll(old(Model()), {p}).state;
    }

    method TryRedispatch(p: Path, ghost why: Why, rejects: set<Path>)
      requires p in state
      modifies this`state, this`open, this`sum, this`log
      ensures Model() == RedispatchAll(old(Model()), {p}, why, rejects)
    {
      ghost var c := Model();
      RedispatchOne(c, p, why, rejects);
      if p in rejects {
        Settle(p);
      } else {
        log := SendAll(c, {p}, why).log;
      }
    }

    method MarkDeparted(w: WorkerId, rejects: set<Path>)
      requires HolderOk(Model())
      modifies this
      ensures Model() == CoordinatorSpec.MarkDeparted(old(Model()), w, rejects)
    {
      if w !in registry || !registry[w].alive {
        return;
      }
      ghost var c := Model();
      registry := registry[w := registry[w].(alive := false, departed := true)];
      var live := CountLive();
      assert HeldBy(c, w) * Open(c.state) == HeldBy(c, w);
      Release(w, live > 0, rejects);
    }

    // Everything a departing worker still holds is let go of.
    method Release(w: WorkerId, live: bool, rejects: set<Path>)
      requires HeldBy(Model(), w) <= Open(state)
      modifies this`state, this`holder, this`open, this`sum, this`log
      ensures Model() == Released(old(Model()), HeldBy(old(Model()), w), live, rejects)
    {
      hide Released, RedispatchAll;
      ghost var c := Model();
      ghost var gone: set<Path> := {};
      var todo := holder.Keys;
      NothingReleased(c, live, rejects);
      while todo != {}
        invariant todo <= c.holder.Keys && gone == HeldBy(c, w) - todo
        invariant Model() == Released(c, gone, live, rejects)
        decreases todo
      {
        var p :| p in todo;
        todo := todo - {p};
        ReleaseLeaves(c, gone, live, rejects, p);
        if holder[p] == w {
          ReleaseStep(c, gone, live, rejects, p);
          assert p in HeldBy(c, w);
          if live && p in state && !state[p].done {
            TryRedispatch(p, HolderDeparted, rejects);
          }
          holder := holder - {p};
          gone := gone + {p};
        }
      }
      assert gone == HeldBy(c, w);
    }

    method Receive(now: int, frame: Option<Frame>, rejects: set<Path>)
      requires Inv(Model(), cfg)
      modifies this
      ensures Model() == CoordinatorSpec.Receive(old(Model()), cfg, now, frame, rejects)
    {
      match frame
      case None =>
      case Some(Malformed) =>
      case Some(Bye(w)) => MarkDeparted(w, rejects);
      case Some(Claim(p, w)) => OnClaim(now, p, w, rejects);
      case Some(Result(p, n, w)) => OnResult(now, p, n, w, rejects);
    }

    method OnResult(now: int, p: Path, n: int, w: WorkerId, rejects: set<Path>)
      modifies this
      ensures Model() == CoordinatorSpec.OnResult(old(Model()), cfg, now, p, n, w, rejects)
    {
      var ok := Touch(w, now);
      if !ok || p !in state || state[p].done {
        return;
      }
      var live := CountLive();
      var retryable := n == PARTIAL && state[p].redispatches < cfg.redispatchCap && live > 0;
      holder := holder - {p};
      ghost var c := Model();
      if retryable {
        state := state[p := state[p].(redispatches := state[p].redispatches + 1)];
        assert state == ChargeAll(c, {p}).state;
        TryRedispatch(p, StoreFault, rejects);
      } else if n >= 0 {
        state := state[p := state[p].(done := true)];
        open := open - 1;
        sum := sum.(filesOk := sum.filesOk + 1, totalEvents := sum.totalEvents + n);
        registry := registry[w := registry[w].(completed := registry[w].completed + [Completion(p, n)])];
      } else {
        Settle(p);
      }
    }

    method OnClaim(now: int, p: Path, w: WorkerId, rejects: set<Path>)
      modifies this
      ensures Model() == CoordinatorSpec.OnClaim(old(Model()), now, p, w, rejects)
    {
      var ok := Touch(w, now);
      if ok {
        if p in state && !state[p].done {
          holder := holder[p := w];
        }
      } else {
        log := log.(goneClaims := log.goneClaims + multiset{p});
        var heldByLive := p in holder && holder[p] in registry && registry[holder[p]].alive;
        var live := CountLive();
        if p in state && !state[p].done && !heldByLive && live > 0 {
          TryRedispatch(p, ClaimedByGone, rejects);
        }
      }
    }

    method Drain(beats: seq<Beat>)
      modifies this`registry
      ensures Model() == CoordinatorSpec.Drain(old(Model()), beats)
    {
      for i := 0 to |beats|
        invariant Model() == CoordinatorSpec.Drain(old(Model()), beats[..i])
      {
        assert beats[..i + 1][..i] == beats[..i] && beats[..i + 1][i] == beats[i];
        if beats[i].worker.Some? {
          var _ := Touch(beats[i].worker.value, beats[i].at);
        }
      }
      assert beats[..|beats|] == beats;
    }

    // Every completion whose item is still done is reopened.
    method ReopenList(w: WorkerId, list: seq<Completion>)
      requires forall i :: 0 <= i < |list| ==> list[i].path in state && state[list[i].path].done
      requires forall i, j :: 0 <= i < j < |list| ==> list[i].path != list[j].path
      modifies this`state, this`open, this`sum
      ensures Model() == Reopen(old(Model()), Listed(w, list))
    {
      hide Reopen, Listed;
      ghost var c := Model();
      NothingListed(c, w, list);
      for i := 0 to |list|
        invariant Model() == Reopen(c, Listed(w, list[..i]))
      {
        var k := list[i];
        ListedStep(c, w, list, i);
        if k.path in state && state[k.path].done {
          state := state[k.path := state[k.path].(done := false)];
          open := open + 1;
          sum := sum.(filesOk := sum.filesOk - 1, totalEvents := sum.totalEvents - k.events);
        }
      }
      assert list[..|list|] == list;
    }

    // Tombstone one silent worker.
    method Bury(w: WorkerId)
      requires Conserved(Model()) && w in registry
      modifies this`state, this`registry, this`open, this`sum
      ensures Model() == Tombstone(old(Model()), {w})
    {
      ghost var c := Model();
      forall i: nat | i < |registry[w].completed| ensures registry[w].completed[i].path in state
          && state[registry[w].completed[i].path].done
      {
        CreditedDone(c, w, i);
      }
      CreditedApart(c, w);
      TombstoneMarks(c, {w});
      ListedEntries(c.registry, w);
      hide Reopen, Listed, EntriesOf, Tombstone, Conserved;
      ReopenList(w, registry[w].completed);
      registry := registry[w := registry[w].(alive := false, completed := [])];
      sum := sum.(workersDied := sum.workersDied + 1);
      assert registry == CoordinatorSpec.Bury(c.registry, {w});
      assert |{w}| == 1;
    }

    method TombstoneSilent(t: int) returns (dead: set<WorkerId>)
      requires Core(Model(), cfg)
      modifies this`state, this`registry, this`open, this`sum
      ensures dead == Silent(old(Model()), cfg, t)
      ensures Model() == Tombstone(old(Model()), dead)
    {
      hide Tombstone, Core, Conserved;
      ghost var c := Model();
      dead := {};
      var todo := registry.Keys;
      NothingToReopen(c);
      while todo != {}
        invariant todo <= c.registry.Keys && dead == Silent(c, cfg, t) - todo
        invariant Model() == Tombstone(c, dead)
        decreases todo
      {
        var w :| w in todo;
        todo := todo - {w};
        TombstoneRegistry(c, dead);
        assert w !in dead && registry[w] == c.registry[w];
        if registry[w].alive && t - registry[w].lastSeen > cfg.deathThreshold {
          TombstoneConserved(c, cfg, dead);
          TombstoneStep(c, dead, w);
          Bury(w);
          dead := dead + {w};
        }
      }
      assert dead == Silent(c, cfg, t);
    }

    method RedistributeItem(p: Path, dead: set<WorkerId>, live: bool, rejects: set<Path>)
      requires p in state
      modifies this`state, this`holder, this`open, this`sum, this`log
      ensures Model() == RedistributeOne(old(Model()), cfg, dead, live, rejects, p)
    {
      if state[p].done || (p in holder && holder[p] !in dead) {
        return;
      }
      if p !in holder {
        if live {
          TryRedispatch(p, UnclaimedAtDeath, rejects);
        }
        return;
      }
      holder := holder - {p};
      if state[p].redispatches >= cfg.redispatchCap {
        Settle(p);
        return;
      }
      ghost var c := Model();
      state := state[p := state[p].(redispatches := state[p].redispatches + 1)];
      assert state == ChargeAll(c, {p}).state;
      if live {
        TryRedispatch(p, HolderDied, rejects);
      }
    }

    method RedistributeOpen(dead: set<WorkerId>, live: bool, rejects: set<Path>)
      modifies this`state, this`holder, this`open, this`sum, this`log
      ensures Model() == Redistribute(old(Model()), cfg, dead, live, rejects, old(state).Keys)
    {
      hide FlatFor, Redistribute, RedistributeOne;
      ghost var c := Model();
      var paths := state.Keys;
      ghost var seen: set<Path> := {};
      NothingYet(c, cfg, dead, live, rejects);
      while paths != {}
        invariant paths <= c.state.Keys && seen == c.state.Keys - paths
        invariant FlatFor(c, Model(), cfg, dead, live, rejects, seen)
        decreases paths
      {
        var p :| p in paths;
        paths := paths - {p};
        FlatStep(c, Model(), cfg, dead, live, rejects, seen, p);
        RedistributeItem(p, dead, live, rejects);
        seen := seen + {p};
      }
      assert seen == c.state.Keys;
      FlatIsRedistribute(c, Model(), cfg, dead, live, rejects, seen);
    }

    method Sweep(t: int, rejects: set<Path>)
      requires Core(Model(), cfg)
      modifies this
      ensures Model() == CoordinatorSpec.Sweep(old(Model()), cfg, t, rejects)
    {
      var dead := TombstoneSilent(t);
      var live := CountLive();
      if dead != {} {
        log := NoteDeaths(Model(), dead).log;
        RedistributeOpen(dead, live > 0, rejects);
      }
    }

    // One turn of the loop, in its pinned order.
    method Pass(start: int, inp: Input)
      requires Inv(Model(), cfg)
      modifies this
      ensures Model() == CoordinatorSpec.Pass(old(Model()), cfg, start, inp)
      ensures Running(Model(), cfg)
    {
      hide Inv, Running, Entries, CoordinatorSpec.Receive, CoordinatorSpec.Drain, CoordinatorSpec.Sweep, MayCredit;
      ghost var c := Model();
      log := Ticked(c).log;
      TickKeeps(c, cfg, inp.frame);
      ReceiveKeeps(Ticked(c), cfg, inp.at, inp.frame, inp.tickRejects);
      DrainKeeps(CoordinatorSpec.Receive(Ticked(c), cfg, inp.at, inp.frame, inp.tickRejects), cfg, inp.beats);
      InvParts(CoordinatorSpec.Receive(Ticked(c), cfg, inp.at, inp.frame, inp.tickRejects), cfg);
      InvParts(Heard(c, cfg, inp), cfg);
      PassKeeps(c, cfg, start, inp);
      Receive(inp.at, inp.frame, inp.tickRejects);
      Drain(inp.beats);
      Sweep(inp.t, inp.sweepRejects);
      var live := CountLive();
      var nobodyEver := registry == map[] && inp.t - start > cfg.deathThreshold;
      if open > 0 && ((live == 0 && registry != map[]) || nobodyEver) {
        sum := sum.(filesFailed := sum.filesFailed + open);
        open := 0;
      }
    }

    // One tick of the registration gate: any frame or beat registers its sender,
    // nothing is dispatched yet.
    method GateTick(inp: Input)
      requires Inv(Model(), cfg) && holder == map[]
      modifies this
      ensures Model() == Greet(old(Model()), inp)
      ensures Inv(Model(), cfg) && holder == map[] && Entries(registry) == old(Entries(registry)) && log == old(log)
      ensures state == old(state) && open == old(open) && sum == old(sum)
    {
      hide Inv, Entries;
      ghost var c := Model();
      GreetKeeps(c, cfg, inp);
      InvParts(c, cfg);
      match inp.frame {
        case Some(Result(_, _, w)) => var _ := Touch(w, inp.at);
        case Some(Claim(_, w)) => var _ := Touch(w, inp.at);
        case Some(Bye(w)) => MarkDeparted(w, inp.tickRejects);
        case _ =>
      }
      Drain(inp.beats);
    }

    // The initial dispatch is not guarded: the first refused send throws.
    method Dispatch(refused: set<Path>) returns (ok: bool)
      requires Inv(Model(), cfg) && forall p :: p in items ==> p in state
      modifies this`log
      ensures ok <==> forall p :: p in items ==> p !in refused
      ensures ok ==> Model() == CoordinatorRuns.Dispatch(old(Model()), items) && Inv(Model(), cfg)
    {
      hide Inv, SendAll;
      ghost var c := Model();
      for i := 0 to |items|
        invariant Model() == CoordinatorRuns.Dispatch(c, items[..i])
        invariant forall k :: 0 <= k < i ==> items[k] !in refused
      {
        assert items[..i + 1][..i] == items[..i] && items[..i + 1][i] == items[i];
        if items[i] in refused {
          return false;
        }
        SendLogs(Model(), {items[i]}, Initial);
        log := SendAll(Model(), {items[i]}, Initial).log;
      }
      assert items[..|items|] == items;
      DispatchInv(c, cfg, items);
      return true;
    }

    // One STOP per live worker plus one per worker that is gone, none when
    // nobody is live; the first refused send ends the attempt.
    method Shutdown(refusedAfter: nat) returns (stops: nat)
      ensures Live(registry) == {} ==> stops == 0
      ensures Live(registry) != {} ==>
              stops <= refusedAfter && stops <= |registry| && (stops < |registry| ==> stops == refusedAfter)
    {
      stops := 0;
      var live := CountLive();
      if live > 0 {
        while stops < |registry| && stops < refusedAfter
          invariant stops <= |registry| && stops <= refusedAfter
        {
          stops := stops + 1;
        }
      }
    }

    // The environment of a run delivers finitely many frames and beats (`script`,
    // one input per tick) and is quiet afterwards with its clock still advancing:
    // `quiet(k)` is the k-th quiet tick. It may refuse any send throughout.
    //
    // The gate holds the initial dispatch until enough workers have registered.
    // It gives up only when nobody did in time.
    method Gate(start: int, script: seq<Input>, quiet: nat -> Input) returns (proceed: bool, used: nat)
      requires Quiet(quiet) && Inv(Model(), cfg) && holder == map[]
      modifies this
      ensures Model() == Greeted(old(Model()), Feed(script, quiet, 0, used))
      ensures GateHolds(old(Model()), cfg, start, Feed(script, quiet, 0, used))
      ensures proceed <==> !(registry == map[] && |registry| < cfg.expectedWorkers)
      ensures Inv(Model(), cfg) && holder == map[] && state == old(state) && open == old(open) && sum == old(sum)
      ensures Entries(registry) == old(Entries(registry)) && log == old(log)
    {
      hide Inv, Greet;
      used := 0;
      ghost var c := Model();
      while |registry| < cfg.expectedWorkers
        invariant Inv(Model(), cfg) && holder == map[] && state == old(state) && open == old(open) && sum == old(sum)
        invariant Entries(registry) == old(Entries(registry)) && log == old(log)
        invariant Model() == Greeted(c, Feed(script, quiet, 0, used))
        invariant GateWaits(c, cfg, start, Feed(script, quiet, 0, used))
        decreases if used < |script| then |script| - used else 0,
                  start + cfg.registrationTimeout - quiet(if used < |script| then 0 else used - |script|).t
      {
        var inp := InputAt(script, quiet, used);
        ghost var before := Feed(script, quiet, 0, used);
        FeedMore(script, quiet, 0, used);
        GateWaitsMore(c, cfg, start, before, inp);
        used := used + 1;
        GateTick(inp);
        if inp.t - start > cfg.registrationTimeout {
          proceed := !(registry == map[] && |registry| < cfg.expectedWorkers);
          return;
        }
      }
      return true, used;
    }

    // The main loop ends: after the script, the first pass later than every
    // deadline is the last one.
    method Loop(start: int, script: seq<Input>, quiet: nat -> Input, used: nat) returns (ghost passes: nat)
      requires Quiet(quiet) && Running(Model(), cfg)
      modifies this
      ensures Model() == After(old(Model()), cfg, start, Feed(script, quiet, used, passes))
      ensures LoopHolds(old(Model()), cfg, start, Feed(script, quiet, used, passes))
      ensures Running(Model(), cfg) && open == 0 && state.Keys == old(state.Keys)
    {
      hide Inv, Running, CoordinatorSpec.Pass, After, Patience, DueBy, Feed, LoopHolds;
      NoPasses(Model(), cfg, start, script, quiet, used);
      var i: nat := used;
      passes := 0;
      ghost var c0 := Model();
      ghost var last := LastDeadline(registry, cfg, start);
      AllDue(registry, cfg, start);
      NotNegative(Model(), cfg);
      while open > 0
        invariant i == used + passes
        invariant Model() == After(c0, cfg, start, Feed(script, quiet, used, passes))
        invariant forall n: nat :: n < passes ==> After(c0, cfg, start, Feed(script, quiet, used, n)).open > 0
        invariant Running(Model(), cfg) && open >= 0 && state.Keys == old(state.Keys)
        invariant last >= start + cfg.deathThreshold
        invariant DueBy(registry, cfg, last)
        decreases if i < |script| then |script| - i else 0, Patience(last, quiet, |script|, i), open
      {
        var inp := InputAt(script, quiet, i);
        ghost var c, scripted := Model(), i < |script|;
        RunningInv(c, cfg);
        AfterMore(c0, cfg, start, Feed(script, quiet, used, passes), inp);
        PassItems(c, cfg, start, inp);
        if !scripted {
          PatienceFalls(last, quiet, |script|, i);
          QuietStep(c, cfg, start, inp, last);
        }
        FeedMore(script, quiet, used, passes);
        Pass(start, inp);
        i, passes := i + 1, passes + 1;
        NotNegative(Model(), cfg);
        if scripted {
          last := LastDeadline(registry, cfg, start);
          AllDue(registry, cfg, start);
        }
      }
      FeedHolds(c0, cfg, start, script, quiet, used, passes);
    }

    // The whole of run_coordinator: unless the unguarded initial dispatch throws,
    // it returns a summary that counts every distinct path exactly once. The gate
    // takes the first `held` inputs of the environment and the loop the next
    // `passes`, each in its order, and the state it ends in is what they make of it.
    method Run(start: int, script: seq<Input>, quiet: nat -> Input, refused: set<Path>, stopsAccepted: nat)
        returns (r: Outcome, ghost held: nat, ghost passes: nat)
      requires Quiet(quiet) && Model() == Fresh(items)
      modifies this
      ensures GateHolds(Fresh(items), cfg, start, Feed(script, quiet, 0, held))
      ensures var g := Greeted(Fresh(items), Feed(script, quiet, 0, held));
              if g.registry == map[] && cfg.expectedWorkers > 0 then
                r == Finished(Summary(0, 0, |set p | p in items|, 0))
              else if exists p :: p in items && p in refused then r == DispatchThrew
              else
                && Model() == After(CoordinatorRuns.Dispatch(g, items), cfg, start, Feed(script, quiet, held, passes))
                && LoopHolds(CoordinatorRuns.Dispatch(g, items), cfg, start, Feed(script, quiet, held, passes))
                && CreditsReported(CoordinatorRuns.Dispatch(g, items), cfg, start, Feed(script, quiet, held, passes))
                && r == Finished(sum)
      ensures r.Finished? ==> r.summary == sum && sum.filesOk + sum.filesFailed == |set p | p in items|
      ensures r.Finished? ==> sum.filesOk == |Entries(registry)| && sum.totalEvents == EventSum(Entries(registry))
    {
      FreshInv(items, cfg);
      FreshCounts(items);
      hide Inv, Running, Entries, EventSum, CoordinatorRuns.Dispatch, Greet, CoordinatorSpec.Pass, LoopHolds, Fresh,
           CreditsReported;
      var proceed := true;
      var used: nat := 0;
      passes := 0;
      NoGate(Model(), cfg, start, Feed(script, quiet, 0, 0));
      if cfg.expectedWorkers > 0 {
        proceed, used := Gate(start, script, quiet);
      }
      held := used;
      InvBalanced(Model(), cfg);
      RunningCounts(Model(), cfg);
      if !proceed {
        sum := sum.(filesFailed := open);
        r := Finished(sum);
        return;
      }
      var ok := Dispatch(refused);
      if !ok {
        r := DispatchThrew;
        return;
      }
      InvBalanced(Model(), cfg);
      AllCreditsLater(Model(), cfg, start);
      passes := Loop(start, script, quiet, used);
      RunningCounts(Model(), cfg);
      var _ := Shutdown(stopsAccepted);
      r := Finished(sum);
    }
  }

  lemma AllCreditsLater(c: Coord, cfg: Config, start: int)
    requires Running(c, cfg) && Entries(c.registry) == {}
    ensures forall inputs :: CreditsReported(c, cfg, start, inputs)
  {
    hide *;
    forall inputs ensures CreditsReported(c, cfg, start, inputs) {
      AllCredits(c, cfg, start, inputs);
    }
  }

  // The gate's loop head: nothing has ended the wait yet.
  ghost predicate GateWaits(c: Coord, cfg: Config, start: int, inputs: seq<Input>) {
    && (forall k :: 0 <= k < |inputs| ==> |Greeted(c, inputs[..k]).registry| < cfg.expectedWorkers)
    && (forall k :: 0 <= k < |inputs| ==> inputs[k].t - start <= cfg.registrationTimeout)
  }

  lemma GreetedMore(c: Coord, inputs: seq<Input>, inp: Input)
    ensures Greeted(c, inputs + [inp]) == Greet(Greeted(c, inputs), inp)
  {
    assert (inputs + [inp])[..|inputs|] == inputs;
  }

  lemma GateWaitsMore(c: Coord, cfg: Config, start: int, inputs: seq<Input>, inp: Input)
    requires GateWaits(c, cfg, start, inputs) && |Greeted(c, inputs).registry| < cfg.expectedWorkers
    ensures var more := inputs + [inp];
            && Greeted(c, more) == Greet(Greeted(c, inputs), inp)
            && (inp.t - start <= cfg.registrationTimeout ==> GateWaits(c, cfg, start, more))
            && (inp.t - start > cfg.registrationTimeout ==> GateHolds(c, cfg, start, more))
  {
    GreetedMore(c, inputs, inp);
    hide Greet, Greeted;
    var more := inputs + [inp];
    forall k | 0 <= k < |more| ensures more[..k] == inputs[..k] {}
    assert inputs[..|inputs|] == inputs;
  }

  lemma NoGate(c: Coord, cfg: Config, start: int, inputs: seq<Input>)
    requires inputs == []
    ensures Greeted(c, inputs) == c && (cfg.expectedWorkers <= 0 ==> GateHolds(c, cfg, start, inputs))
  {
  }

  lemma FeedHolds(c: Coord, cfg: Config, start: int, script: seq<Input>, quiet: nat -> Input, used: nat, passes: nat)
    requires forall n: nat :: n < passes ==> After(c, cfg, start, Feed(script, quiet, used, n)).open > 0
    requires After(c, cfg, start, Feed(script, quiet, used, passes)).open <= 0
    ensures LoopHolds(c, cfg, start, Feed(script, quiet, used, passes))
  {
    hide After;
    forall k: nat | k < passes
      ensures After(c, cfg, start, Feed(script, quiet, used, passes)[..k]).open > 0
    {
      FeedTake(script, quiet, used, k, passes);
    }
  }

  lemma NoPasses(c: Coord, cfg: Config, start: int, script: seq<Input>, quiet: nat -> Input, used: nat)
    ensures After(c, cfg, start, Feed(script, quiet, used, 0)) == c
  {
    assert Feed(script, quiet, used, 0) == [];
  }

  // Nobody who is alive stays so in silence past `last`.
  ghost predicate DueBy(registry: map<WorkerId, Worker>, cfg: Config, last: int) {
    forall w :: w in Live(registry) ==> registry[w].lastSeen + cfg.deathThreshold <= last
  }

  lemma AllDue(registry: map<WorkerId, Worker>, cfg: Config, start: int)
    ensures DueBy(registry, cfg, LastDeadline(registry, cfg, start))
  {
    hide LastDeadline;
  }

  lemma QuietStep(c: Coord, cfg: Config, start: int, inp: Input, last: int)
    requires Inv(c, cfg) && inp.frame == None && inp.beats == []
    requires DueBy(c.registry, cfg, last) && last >= start + cfg.deathThreshold
    ensures var d := CoordinatorSpec.Pass(c, cfg, start, inp);
            DueBy(d.registry, cfg, last) && (inp.t > last ==> d.open == 0)
  {
    hide Inv, CoordinatorSpec.Pass, Live;
    QuietKeepsDeadlines(c, cfg, start, inp);
    if inp.t > last {
      QuietPassIsLast(c, cfg, start, inp);
    }
  }

  lemma AfterMore(c: Coord, cfg: Config, start: int, inputs: seq<Input>, inp: Input)
    requires After(c, cfg, start, inputs).open > 0
    ensures After(c, cfg, start, inputs + [inp]) == CoordinatorSpec.Pass(After(c, cfg, start, inputs), cfg, start, inp)
  {
    assert (inputs + [inp])[..|inputs|] == inputs;
    hide CoordinatorSpec.Pass;
  }

  lemma PatienceFalls(last: int, quiet: nat -> Input, scripted: nat, i: nat)
    requires Quiet(quiet) && i >= scripted
    ensures quiet(i - scripted).t <= last ==>
              Patience(last, quiet, scripted, i + 1) < Patience(last, quiet, scripted, i)
    ensures Patience(last, quiet, scripted, i + 1) <= Patience(last, quiet, scripted, i)
  {
    assert quiet(i - scripted).t < quiet(i - scripted + 1).t;
  }

  // How long the quiet that is left can go on.
  ghost function Patience(last: int, quiet: nat -> Input, scripted: nat, i: nat): nat {
    var t := quiet(if i < scripted then 0 else i - scripted).t;
    if last >= t then last - t + 1 else 0
  }

  lemma FreshCounts(items: seq<Path>)
    ensures Fresh(items).holder == map[] && Fresh(items).sum == Summary(0, 0, 0, 0)
    ensures Entries(Fresh(items).registry) == {}
  {
  }

  lemma RunningCounts(c: Coord, cfg: Config)
    requires Running(c, cfg)
    ensures c.sum.filesOk == |Entries(c.registry)| && c.sum.totalEvents == EventSum(Entries(c.registry))
    ensures c.sum.filesOk + c.sum.filesFailed + c.open == |c.state.Keys|
  {
    assert |c.state| == |c.state.Keys|;
  }

  lemma InvParts(c: Coord, cfg: Config)
    requires Inv(c, cfg)
    ensures Core(c, cfg) && HolderOk(c) && Conserved(c)
  {
  }

  // The quiet part of an environment: no frames, no beats, and time goes on.
  ghost predicate Quiet(quiet: nat -> Input) {
    && (forall k :: quiet(k).frame == None && quiet(k).beats == [])
    && (forall k: nat :: quiet(k).t < quiet(k + 1).t)
  }

  lemma NotNegative(c: Coord, cfg: Config)
    requires Running(c, cfg)
    ensures c.open >= 0
  {
  }

  /******* Small facts the loops use *******/

  lemma SendLogs(c: Coord, ps: set<Path>, why: Why)
    ensures SendAll(c, ps, why) == c.(log := SendAll(c, ps, why).log)
  {
  }

  // Before the dispatch nothing is held, so nothing but the registry changes.
  lemma GreetKeeps(c: Coord, cfg: Config, inp: Input)
    requires Inv(c, cfg) && c.holder == map[]
    ensures var d := Greet(c, inp);
            && Inv(d, cfg) && Entries(d.registry) == Entries(c.registry)
            && d == c.(registry := d.registry)
  {
    hide Inv, Entries, CoordinatorSpec.Touch, CoordinatorSpec.MarkDeparted, CoordinatorSpec.Drain;
    match inp.frame
    case Some(Result(_, _, w)) => MeetTouch(c, cfg, w, inp);
    case Some(Claim(_, w)) => MeetTouch(c, cfg, w, inp);
    case Some(Bye(w)) => MeetBye(c, cfg, w, inp);
    case _ => DrainKeeps(c, cfg, inp.beats);
  }

  lemma MeetTouch(c: Coord, cfg: Config, w: WorkerId, inp: Input)
    requires Inv(c, cfg)
    ensures var c1 := CoordinatorSpec.Touch(c, w, inp.at);
            var d := CoordinatorSpec.Drain(c1, inp.beats);
            Inv(d, cfg) && Entries(d.registry) == Entries(c.registry) && d == c.(registry := d.registry)
  {
    TouchInv(c, cfg, w, inp.at);
    TouchOnly(c, w, inp.at);
    hide Inv, Entries, CoordinatorSpec.Touch;
    DrainKeeps(CoordinatorSpec.Touch(c, w, inp.at), cfg, inp.beats);
  }

  lemma TouchOnly(c: Coord, w: WorkerId, at: int)
    ensures var d := CoordinatorSpec.Touch(c, w, at); d == c.(registry := d.registry)
  {
  }

  lemma MeetBye(c: Coord, cfg: Config, w: WorkerId, inp: Input)
    requires Inv(c, cfg) && c.holder == map[]
    ensures var c1 := CoordinatorSpec.MarkDeparted(c, w, inp.tickRejects);
            var d := CoordinatorSpec.Drain(c1, inp.beats);
            Inv(d, cfg) && Entries(d.registry) == Entries(c.registry) && d == c.(registry := d.registry)
  {
    InvParts(c, cfg);
    hide Inv, Core, HolderOk, Entries, CoordinatorSpec.MarkDeparted;
    MarkDepartedKeeps(c, cfg, w, inp.tickRejects);
    NothingHeld(c, w, inp.tickRejects);
    DrainKeeps(CoordinatorSpec.MarkDeparted(c, w, inp.tickRejects), cfg, inp.beats);
  }

  lemma NothingHeld(c: Coord, w: WorkerId, rejects: set<Path>)
    requires c.holder == map[]
    ensures var d := CoordinatorSpec.MarkDeparted(c, w, rejects);
            d.holder == map[] && d.state == c.state && d.open == c.open && d.sum == c.sum && d.log == c.log
  {
    assert HeldBy(c, w) * Open(c.state) == {};
    if w in c.registry {
      NothingToRedispatch(c.(registry := c.registry[w := c.registry[w].(alive := false, departed := true)],
                             holder := c.holder - HeldBy(c, w)),
                          HolderDeparted, rejects);
    }
  }

  // The last moment at which somebody's silence becomes a death.
  ghost function LastDeadline(registry: map<WorkerId, Worker>, cfg: Config, start: int): (last: int)
    ensures last >= start + cfg.deathThreshold
    ensures forall w :: w in registry ==> registry[w].lastSeen + cfg.deathThreshold <= last
    decreases |registry|
  {
    if registry == map[] then start + cfg.deathThreshold
    else
      var w :| w in registry;
      var rest := LastDeadline(registry - {w}, cfg, start);
      assert forall v :: v in registry && v != w ==> v in registry - {w} && (registry - {w})[v] == registry[v];
      if registry[w].lastSeen + cfg.deathThreshold > rest then registry[w].lastSeen + cfg.deathThreshold else rest
  }

  lemma QuietKeepsDeadlines(c: Coord, cfg: Config, start: int, inp: Input)
    requires Inv(c, cfg) && inp.frame == None && inp.beats == []
    ensures var d := CoordinatorSpec.Pass(c, cfg, start, inp);
            forall w :: w in Live(d.registry) ==>
                w in Live(c.registry) && d.registry[w].lastSeen == c.registry[w].lastSeen
  {
    hide *;
    QuietHeard(c, cfg, inp);
    SweptKeeps(c, cfg, inp);
    PassRegistry(c, cfg, start, inp);
    BuryDeadlines(c.registry, Silent(Heard(c, cfg, inp), cfg, inp.t));
  }

  lemma BuryDeadlines(r: map<WorkerId, Worker>, ws: set<WorkerId>)
    ensures forall w :: w in Live(CoordinatorSpec.Bury(r, ws)) ==>
            w in Live(r) && CoordinatorSpec.Bury(r, ws)[w].lastSeen == r[w].lastSeen
  {
  }

  ghost function Released(c: Coord, ps: set<Path>, live: bool, rejects: set<Path>): Coord {
    var c1 := c.(holder := c.holder - ps);
    if live then RedispatchAll(c1, ps, HolderDeparted, rejects) else c1
  }

  lemma NothingReleased(c: Coord, live: bool, rejects: set<Path>)
    ensures Released(c, {}, live, rejects) == c
  {
    assert c.holder - {} == c.holder;
    NothingToRedispatch(c, HolderDeparted, rejects);
  }

  lemma ReleaseLeaves(c: Coord, ps: set<Path>, live: bool, rejects: set<Path>, p: Path)
    requires p in c.holder && p !in ps
    ensures var d := Released(c, ps, live, rejects);
            && p in d.holder && d.holder[p] == c.holder[p]
            && (p in Open(c.state) ==> p in d.state && !d.state[p].done)
  {
  }

  lemma ReleaseStep(c: Coord, ps: set<Path>, live: bool, rejects: set<Path>, p: Path)
    requires p !in ps
    ensures var d := Released(c, ps, live, rejects);
            Released(c, ps + {p}, live, rejects) == (if live then RedispatchAll(d, {p}, HolderDeparted, rejects)
                                                     else d).(holder := d.holder - {p})
  {
    var c1 := c.(holder := c.holder - ps);
    assert c.holder - ps - {p} == c.holder - (ps + {p});
    if live {
      RedispatchStep(c1, ps, p, HolderDeparted, rejects);
      RedispatchForgets(c1, ps + {p}, HolderDeparted, rejects, c.holder - (ps + {p}));
      RedispatchSame(c1, ps, HolderDeparted, rejects);
      hide RedispatchAll;
    }
  }

  // A re-dispatch does not read the holder map.
  lemma RedispatchForgets(c: Coord, ps: set<Path>, why: Why, rejects: set<Path>, h: map<Path, WorkerId>)
    ensures RedispatchAll(c.(holder := h), ps, why, rejects) == RedispatchAll(c, ps, why, rejects).(holder := h)
  {
  }

  lemma CreditedDone(c: Coord, w: WorkerId, i: nat)
    requires Conserved(c) && w in c.registry && i < |c.registry[w].completed|
    ensures var k := c.registry[w].completed[i]; k.path in c.state && c.state[k.path].done
  {
    var k := c.registry[w].completed[i];
    EntriesMember(c.registry, Entry(w, k.path, k.events));
  }

  lemma CreditedApart(c: Coord, w: WorkerId)
    requires Conserved(c) && w in c.registry
    ensures var list := c.registry[w].completed; forall i, j :: 0 <= i < j < |list| ==> list[i].path != list[j].path
  {
  }

  lemma ListedEntries(registry: map<WorkerId, Worker>, w: WorkerId)
    requires w in registry
    ensures Listed(w, registry[w].completed) == EntriesOf(registry, {w})
  {
  }

  lemma TombstoneConserved(c: Coord, cfg: Config, ws: set<WorkerId>)
    requires Core(c, cfg) && ws <= Live(c.registry)
    ensures Conserved(Tombstone(c, ws))
  {
    TombstoneKeeps(c, cfg, ws);
    hide Conserved, Tombstone;
  }

  lemma FlatIsRedistribute(c: Coord, d: Coord, cfg: Config, dead: set<WorkerId>, live: bool, rejects: set<Path>,
                           ps: set<Path>)
    requires FlatFor(c, d, cfg, dead, live, rejects, ps)
    ensures d == Redistribute(c, cfg, dead, live, rejects, ps)
  {
    hide Flat, Redistribute;
    RedistributeFlat(c, cfg, dead, live, rejects, ps);
    var orphans, spent := Orphans(c, dead, ps), Exhausted(c, cfg, dead, ps);
    FlatUnique(c, d, Redistribute(c, cfg, dead, live, rejects, ps), orphans, spent,
               if live then orphans - spent else {}, if live then Unclaimed(c, ps) else {}, rejects);
  }

  ghost function Listed(w: WorkerId, list: seq<Completion>): set<Entry> {
    set k | k in list :: Entry(w, k.path, k.events)
  }

  lemma ReopenOne(c: Coord, e: Entry)
    requires e.path in c.state
    ensures Reopen(c, {e}) == c.(state := c.state[e.path := c.state[e.path].(done := false)], open := c.open + 1,
                                 sum := c.sum.(filesOk := c.sum.filesOk - 1,
                                               totalEvents := c.sum.totalEvents - e.events))
  {
    assert PathsOf({e}) == {e.path};
    EventSumTake({e}, e);
    assert Reopen(c, {e}).state == c.state[e.path := c.state[e.path].(done := false)];
  }

  lemma NothingListed(c: Coord, w: WorkerId, list: seq<Completion>)
    ensures Reopen(c, Listed(w, list[..0])) == c
  {
    NothingToReopen(c);
    assert Listed(w, list[..0]) == {};
  }

  lemma ListedNext(w: WorkerId, list: seq<Completion>, i: nat)
    requires i < |list| && forall j :: 0 <= j < i ==> list[j].path != list[i].path
    ensures Listed(w, list[..i + 1]) == Listed(w, list[..i]) + {Entry(w, list[i].path, list[i].events)}
    ensures list[i].path !in PathsOf(Listed(w, list[..i]))
  {
    assert list[..i + 1] == list[..i] + [list[i]];
  }

  lemma ListedStep(c: Coord, w: WorkerId, list: seq<Completion>, i: nat)
    requires i < |list| && list[i].path in c.state && c.state[list[i].path].done
    requires forall j :: 0 <= j < i ==> list[j].path != list[i].path
    ensures var k, d := list[i], Reopen(c, Listed(w, list[..i]));
            && k.path in d.state && d.state[k.path].done
            && Reopen(c, Listed(w, list[..i + 1]))
            == d.(state := d.state[k.path := d.state[k.path].(done := false)], open := d.open + 1,
                  sum := d.sum.(filesOk := d.sum.filesOk - 1, totalEvents := d.sum.totalEvents - k.events))
  {
    var es, e := Listed(w, list[..i]), Entry(w, list[i].path, list[i].events);
    ListedNext(w, list, i);
    assert e !in es by { assert e in es ==> e.path in PathsOf(es); }
    assert Reopen(c, es).state[e.path] == c.state[e.path];
    hide Reopen, Listed, PathsOf;
    ReopenStep(c, es, e);
    ReopenOne(Reopen(c, es), e);
  }
}
