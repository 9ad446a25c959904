// Which results the summary ends up crediting, over whole runs.
module CoordinatorCredits {
  import opened Protocol
  import opened CoordinatorSpec
  import opened CoordinatorLaws
  import opened CoordinatorPasses
  import opened CoordinatorRuns
  import opened CoordinatorEffects

  // The frame reports e: a count, by a worker that is not gone, for an open item.
  ghost predicate Reports(c: Coord, frame: Option<Frame>, e: Entry) {
    && frame == Some(Result(e.path, e.events, e.worker)) && e.events >= 0
    && (e.worker in c.registry ==> c.registry[e.worker].alive)
    && e.path in c.state && !c.state[e.path].done
  }

  lemma ReceiveCredits(c: Coord, cfg: Config, at: int, frame: Option<Frame>, rejects: set<Path>, e: Entry)
    requires Inv(c, cfg)
    ensures e in Entries(Receive(c, cfg, at, frame, rejects).registry)
            <==> e in Entries(c.registry) || Reports(c, frame, e)
  {
    hide Inv, Entries, OnResult, OnClaim, MarkDeparted;
    match frame
    case Some(Result(p, n, w)) => ResultCredits(c, cfg, at, p, n, w, rejects, e);
    case Some(Claim(p, w)) => OnClaimKeeps(c, cfg, at, p, w, rejects);
    case Some(Bye(w)) => DepartCredits(c, cfg, w, rejects);
    case _ =>
  }

  lemma DepartCredits(c: Coord, cfg: Config, w: WorkerId, rejects: set<Path>)
    requires Inv(c, cfg)
    ensures Entries(MarkDeparted(c, w, rejects).registry) == Entries(c.registry)
  {
    MarkDepartedKeeps(c, cfg, w, rejects);
    hide Entries, Core, MarkDeparted;
  }

  lemma ResultCredits(c: Coord, cfg: Config, at: int, p: Path, n: int, w: WorkerId, rejects: set<Path>, e: Entry)
    requires Inv(c, cfg)
    ensures e in Entries(OnResult(c, cfg, at, p, n, w, rejects).registry)
            <==> e in Entries(c.registry) || Reports(c, Some(Result(p, n, w)), e)
  {
    OpenMember(c.state, p);
    TouchInv(c, cfg, w, at);
    if Touched(c, w) && p in Open(c.state) {
      ResultOutcome(c, cfg, at, p, n, w, rejects);
    } else {
      NotTaken(c, cfg, at, p, n, w, rejects);
    }
    hide Inv, Entries, OnResult, Open;
  }

  lemma NotTaken(c: Coord, cfg: Config, at: int, p: Path, n: int, w: WorkerId, rejects: set<Path>)
    requires !(Touched(c, w) && p in Open(c.state))
    ensures OnResult(c, cfg, at, p, n, w, rejects) == Touch(c, w, at)
  {
    hide Outcome;
  }

  // One pass: what was credited before or is reported now, and whose worker the
  // pass has not left tombstoned.
  lemma PassCredits(c: Coord, cfg: Config, start: int, inp: Input, e: Entry)
    requires Inv(c, cfg)
    ensures var d := Pass(c, cfg, start, inp);
            e in Entries(d.registry)
            <==> (e in Entries(c.registry) || Reports(c, inp.frame, e)) && !Tombstoned(d, e.worker)
  {
    hide Inv, Entries, Receive, Drain, Sweep, Pass, Reports, Bury, Silent, Tombstoned, MayCredit;
    var c1 := Ticked(c);
    var c2 := Receive(c1, cfg, inp.at, inp.frame, inp.tickRejects);
    TickKeeps(c, cfg, inp.frame);
    TickReports(c, inp.frame, e);
    ReceiveKeeps(c1, cfg, inp.at, inp.frame, inp.tickRejects);
    ReceiveCredits(c1, cfg, inp.at, inp.frame, inp.tickRejects, e);
    DrainKeeps(c2, cfg, inp.beats);
    SweptKeeps(c, cfg, inp);
    PassRegistry(c, cfg, start, inp);
    var h := Heard(c, cfg, inp);
    BuriedCredits(h, cfg, Pass(c, cfg, start, inp), inp.t, e);
  }

  lemma TickReports(c: Coord, frame: Option<Frame>, e: Entry)
    ensures Reports(Ticked(c), frame, e) == Reports(c, frame, e) && Ticked(c).registry == c.registry
  {
  }

  // Burying takes back exactly the credits of those it buries, and nobody who is
  // tombstoned had any left.
  lemma BuriedCredits(c: Coord, cfg: Config, d: Coord, t: int, e: Entry)
    requires Inv(c, cfg) && d.registry == Bury(c.registry, Silent(c, cfg, t))
    ensures e in Entries(d.registry) <==> e in Entries(c.registry) && !Tombstoned(d, e.worker)
  {
    BuryEntries(c.registry, Silent(c, cfg, t));
    EntriesMember(c.registry, e);
    EntriesMember(d.registry, e);
    assert RegistryOk(c.registry);
    hide Inv, Entries, EntriesOf;
  }

  /******* Runs *******/

  // The k-th input of the run is a pass, and its frame reports e.
  ghost predicate ReportedAt(c: Coord, cfg: Config, start: int, inputs: seq<Input>, k: nat, e: Entry) {
    && k < |inputs| && After(c, cfg, start, inputs[..k]).open > 0
    && Reports(After(c, cfg, start, inputs[..k]), inputs[k].frame, e)
  }

  // The law of the summary: after any run, the credits are exactly the results
  // reported for open items by workers that were not gone then, less those
  // whose worker is tombstoned by now.
  lemma {:induction false} RunCredits(c: Coord, cfg: Config, start: int, inputs: seq<Input>, e: Entry)
    requires Running(c, cfg) && Entries(c.registry) == {}
    ensures var d := After(c, cfg, start, inputs);
            e in Entries(d.registry)
            <==> !Tombstoned(d, e.worker) && exists k :: ReportedAt(c, cfg, start, inputs, k, e)
    decreases |inputs|
  {
    hide Running, Entries, Pass, Reports, Tombstoned, Inv;
    if inputs == [] {
      forall k: nat ensures !ReportedAt(c, cfg, start, inputs, k, e) {}
    } else {
      var n := |inputs| - 1;
      var less := inputs[..n];
      RunCredits(c, cfg, start, less, e);
      RunConserves(c, cfg, start, less);
      EarlierReports(c, cfg, start, inputs, e);
      var d := After(c, cfg, start, less);
      if d.open > 0 {
        RunningInv(d, cfg);
        PassCredits(d, cfg, start, inputs[n], e);
        if Tombstoned(d, e.worker) { StaysTombstoned(d, cfg, start, inputs[n], e.worker); }
      }
    }
  }

  lemma StaysTombstoned(c: Coord, cfg: Config, start: int, inp: Input, w: WorkerId)
    requires Inv(c, cfg) && Tombstoned(c, w)
    ensures Tombstoned(Pass(c, cfg, start, inp), w)
  {
    PassGone(c, cfg, start, inp);
    hide Inv, Pass;
  }

  lemma EarlierReports(c: Coord, cfg: Config, start: int, inputs: seq<Input>, e: Entry)
    requires inputs != []
    ensures var n := |inputs| - 1;
            (exists k :: ReportedAt(c, cfg, start, inputs, k, e))
            <==> (exists k :: ReportedAt(c, cfg, start, inputs[..n], k, e)) || ReportedAt(c, cfg, start, inputs, n, e)
  {
    hide After, Reports;
    var n := |inputs| - 1;
    forall k: nat | k < n ensures inputs[..n][..k] == inputs[..k] && inputs[..n][k] == inputs[k] {}
    if k: nat :| ReportedAt(c, cfg, start, inputs[..n], k, e) {
      assert ReportedAt(c, cfg, start, inputs, k, e);
    }
    if k: nat :| ReportedAt(c, cfg, start, inputs, k, e) {
      assert k < n ==> ReportedAt(c, cfg, start, inputs[..n], k, e);
    }
  }

  // What a coordinator that ran these passes credits.
  ghost predicate CreditsReported(c: Coord, cfg: Config, start: int, inputs: seq<Input>) {
    var d := After(c, cfg, start, inputs);
    forall e :: e in Entries(d.registry)
                <==> !Tombstoned(d, e.worker) && exists k :: ReportedAt(c, cfg, start, inputs, k, e)
  }

  lemma AllCredits(c: Coord, cfg: Config, start: int, inputs: seq<Input>)
    requires Running(c, cfg) && Entries(c.registry) == {}
    ensures CreditsReported(c, cfg, start, inputs)
  {
    hide Running, Entries, After, ReportedAt, Tombstoned;
    forall e ensures e in Entries(After(c, cfg, start, inputs).registry)
                     <==> !Tombstoned(After(c, cfg, start, inputs), e.worker)
                          && exists k :: ReportedAt(c, cfg, start, inputs, k, e)
    {
      RunCredits(c, cfg, start, inputs, e);
    }
  }

  // So a count that was delivered stays credited, unless its worker was buried.
  lemma DeliveredStays(c: Coord, cfg: Config, start: int, inputs: seq<Input>, k: nat, e: Entry)
    requires Running(c, cfg) && Entries(c.registry) == {} && ReportedAt(c, cfg, start, inputs, k, e)
    ensures var d := After(c, cfg, start, inputs);
            e.path in PathsOf(Entries(d.registry)) || Tombstoned(d, e.worker)
  {
    RunCredits(c, cfg, start, inputs, e);
    hide Running, Entries, After, ReportedAt;
  }
}
