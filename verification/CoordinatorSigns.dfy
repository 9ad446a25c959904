// Signs of life: what the frame and the heartbeats of one pass do to the
// registry, worker by worker, and who the pass's deadline sweep buries. Stated
// on the input alone, the latest sign of life of each worker.
module CoordinatorSigns {
  import opened Protocol
  import opened CoordinatorSpec
  import opened CoordinatorLaws
  import opened CoordinatorPasses
  import opened CoordinatorRuns

  // A result or a claim vouches for its sender, a goodbye does not.
  ghost predicate Vouches(frame: Option<Frame>, w: WorkerId) {
    frame.Some? && (frame.value.Result? || frame.value.Claim?) && frame.value.worker == w
  }

  ghost predicate BeatAt(beats: seq<Beat>, i: int, w: WorkerId) {
    0 <= i < |beats| && beats[i].worker == Some(w)
  }

  ghost predicate NoneAfter(beats: seq<Beat>, i: int, w: WorkerId) {
    forall j :: i < j ==> !BeatAt(beats, j, w)
  }

  // The latest time at which the input vouches for w: its last heartbeat, or
  // failing that the frame, or not at all.
  ghost predicate LatestSign(inp: Input, w: WorkerId, sign: Option<int>) {
    if exists i :: BeatAt(inp.beats, i, w) then
      exists i :: BeatAt(inp.beats, i, w) && sign == Some(inp.beats[i].at) && NoneAfter(inp.beats, i, w)
    else sign == if Vouches(inp.frame, w) then Some(inp.at) else None
  }

  // There is always exactly one answer.
  lemma SignExists(inp: Input, w: WorkerId) returns (sign: Option<int>)
    ensures LatestSign(inp, w, sign)
    ensures forall other :: LatestSign(inp, w, other) ==> other == sign
  {
    if exists i :: BeatAt(inp.beats, i, w) {
      var i := LastBeat(inp.beats, w);
      sign := Some(inp.beats[i].at);
      assert BeatAt(inp.beats, i, w);
      forall other | LatestSign(inp, w, other) ensures other == sign {
        var k :| BeatAt(inp.beats, k, w) && other == Some(inp.beats[k].at) && NoneAfter(inp.beats, k, w);
        assert !(k < i) && !(i < k);
      }
    } else {
      sign := if Vouches(inp.frame, w) then Some(inp.at) else None;
    }
  }

  lemma {:induction false} LastBeat(beats: seq<Beat>, w: WorkerId) returns (i: nat)
    requires exists k :: BeatAt(beats, k, w)
    ensures BeatAt(beats, i, w) && NoneAfter(beats, i, w)
  {
    i := |beats| - 1;
    if beats[i].worker != Some(w) {
      var less := beats[..i];
      var k :| BeatAt(beats, k, w);
      assert BeatAt(less, k, w);
      i := LastBeat(less, w);
      forall j | i < j ensures !BeatAt(beats, j, w) {
        assert !BeatAt(less, j, w);
      }
    }
  }

  /******* The frame *******/

  // What a frame received at `at` does to w's entry, from registry r to s.
  ghost predicate Met(r: map<WorkerId, Worker>, s: map<WorkerId, Worker>, frame: Option<Frame>, at: int, w: WorkerId) {
    if w in r && !r[w].alive then w in s && s[w] == r[w]
    else if frame == Some(Bye(w)) then
      if w in r then w in s && s[w] == r[w].(alive := false, departed := true) else w !in s
    else if Vouches(frame, w) then
      && w in s && s[w].alive && s[w].lastSeen == at
      && (if w in r then r[w].completed <= s[w].completed && s[w].departed == r[w].departed else !s[w].departed)
    else if w in r then w in s && s[w] == r[w]
    else w !in s
  }

  lemma TouchMet(c: Coord, u: WorkerId, at: int, frame: Option<Frame>, w: WorkerId)
    requires frame.Some? && (frame.value.Result? || frame.value.Claim?) && frame.value.worker == u
    ensures Met(c.registry, Touch(c, u, at).registry, frame, at, w)
  {
  }

  lemma DepartMet(c: Coord, u: WorkerId, rejects: set<Path>, at: int, w: WorkerId)
    ensures Met(c.registry, MarkDeparted(c, u, rejects).registry, Some(Bye(u)), at, w)
  {
    hide HeldBy, Open, Live, RedispatchAll;
    if u in c.registry && c.registry[u].alive {
      var r := c.registry[u := c.registry[u].(alive := false, departed := true)];
      RedispatchSame(c.(registry := r, holder := c.holder - HeldBy(c, u)), HeldBy(c, u) * Open(c.state),
                     HolderDeparted, rejects);
    }
  }

  // A credit only lengthens the sender's own list.
  lemma CreditMet(r: map<WorkerId, Worker>, s: map<WorkerId, Worker>, frame: Option<Frame>, at: int, u: WorkerId,
                  k: Completion, w: WorkerId)
    requires Met(r, s, frame, at, w) && Vouches(frame, u) && u in s && s[u].alive
    ensures Met(r, s[u := s[u].(completed := s[u].completed + [k])], frame, at, w)
  {
  }

  lemma ResultMet(c: Coord, cfg: Config, at: int, p: Path, n: int, u: WorkerId, rejects: set<Path>, w: WorkerId)
    ensures Met(c.registry, OnResult(c, cfg, at, p, n, u, rejects).registry, Some(Result(p, n, u)), at, w)
  {
    var c1 := Touch(c, u, at);
    TouchMet(c, u, at, Some(Result(p, n, u)), w);
    if Touched(c, u) && p in Open(c1.state) {
      var c2 := c1.(holder := c1.holder - {p});
      RedispatchSame(ChargeAll(c2, {p}), {p}, StoreFault, rejects);
      CreditMet(c.registry, c1.registry, Some(Result(p, n, u)), at, u, Completion(p, n), w);
    }
    hide Met, RedispatchAll, Open, Live;
  }

  lemma ClaimMet(c: Coord, at: int, p: Path, u: WorkerId, rejects: set<Path>, w: WorkerId)
    ensures Met(c.registry, OnClaim(c, at, p, u, rejects).registry, Some(Claim(p, u)), at, w)
  {
    TouchMet(c, u, at, Some(Claim(p, u)), w);
    RedispatchSame(c.(log := c.log.(goneClaims := c.log.goneClaims + multiset{p})), {p}, ClaimedByGone, rejects);
    hide RedispatchAll, Open, Live, HeldByLive, Met;
  }

  lemma ReceiveMet(c: Coord, cfg: Config, at: int, frame: Option<Frame>, rejects: set<Path>, w: WorkerId)
    ensures Met(c.registry, Receive(c, cfg, at, frame, rejects).registry, frame, at, w)
  {
    match frame
    case Some(Result(p, n, u)) => ResultMet(c, cfg, at, p, n, u, rejects, w);
    case Some(Claim(p, u)) => ClaimMet(c, at, p, u, rejects, w);
    case Some(Bye(u)) => DepartMet(c, u, rejects, at, w);
    case _ =>
    hide OnResult, OnClaim, MarkDeparted;
  }

  /******* The heartbeats *******/

  // What the drain does to w's entry.
  ghost predicate Drained(r: map<WorkerId, Worker>, s: map<WorkerId, Worker>, beats: seq<Beat>, w: WorkerId) {
    if (w in r && !r[w].alive) || forall i :: !BeatAt(beats, i, w) then
      if w in r then w in s && s[w] == r[w] else w !in s
    else
      && w in s && s[w].alive
      && (forall i :: BeatAt(beats, i, w) && NoneAfter(beats, i, w) ==> s[w].lastSeen == beats[i].at)
      && (if w in r then s[w].completed == r[w].completed && s[w].departed == r[w].departed else !s[w].departed)
  }

  lemma {:induction false} DrainSigns(c: Coord, beats: seq<Beat>, w: WorkerId)
    ensures Drained(c.registry, Drain(c, beats).registry, beats, w)
  {
    if beats != [] {
      var n := |beats| - 1;
      var less := beats[..n];
      DrainSigns(c, less, w);
      assert forall i :: i != n ==> (BeatAt(beats, i, w) <==> BeatAt(less, i, w));
      assert BeatAt(beats, n, w) <==> beats[n].worker == Some(w);
      DrainStep(c.registry, Drain(c, less), beats, w);
    }
  }

  lemma DrainStep(r: map<WorkerId, Worker>, d: Coord, beats: seq<Beat>, w: WorkerId)
    requires beats != [] && Drained(r, d.registry, beats[..|beats| - 1], w)
    ensures var b := beats[|beats| - 1];
            Drained(r, (if b.worker.Some? then Touch(d, b.worker.value, b.at) else d).registry, beats, w)
  {
    var n := |beats| - 1;
    var less := beats[..n];
    assert forall i :: i != n ==> (BeatAt(beats, i, w) <==> BeatAt(less, i, w));
    assert BeatAt(beats, n, w) <==> beats[n].worker == Some(w);
    assert !BeatAt(less, n, w);
  }

  /******* Frame and heartbeats together *******/

  // How w's entry looks before the deadline sweep, given its latest sign.
  ghost predicate Seen(r: map<WorkerId, Worker>, s: map<WorkerId, Worker>, inp: Input, w: WorkerId, sign: Option<int>) {
    if w in r && !r[w].alive then w in s && s[w] == r[w]
    else if w in r && inp.frame == Some(Bye(w)) then w in s && s[w] == r[w].(alive := false, departed := true)
    else if w in r then
      && w in s && s[w].alive && r[w].completed <= s[w].completed
      && s[w].lastSeen == if sign.Some? then sign.value else r[w].lastSeen
    else if sign.Some? then w in s && s[w].alive && s[w].lastSeen == sign.value
    else w !in s
  }

  lemma MetAndDrained(r: map<WorkerId, Worker>, m: map<WorkerId, Worker>, s: map<WorkerId, Worker>, inp: Input,
                      w: WorkerId, sign: Option<int>)
    requires Met(r, m, inp.frame, inp.at, w) && Drained(m, s, inp.beats, w) && LatestSign(inp, w, sign)
    ensures Seen(r, s, inp, w, sign)
  {
  }

  lemma HeardSigns(c: Coord, cfg: Config, inp: Input, w: WorkerId, sign: Option<int>)
    requires LatestSign(inp, w, sign)
    ensures Seen(c.registry, Heard(c, cfg, inp).registry, inp, w, sign)
  {
    hide *;
    var c1 := Receive(Ticked(c), cfg, inp.at, inp.frame, inp.tickRejects);
    TickedRegistry(c);
    ReceiveMet(Ticked(c), cfg, inp.at, inp.frame, inp.tickRejects, w);
    DrainSigns(c1, inp.beats, w);
    HeardIs(c, cfg, inp);
    MetAndDrained(c.registry, c1.registry, Heard(c, cfg, inp).registry, inp, w, sign);
  }

  lemma TickedRegistry(c: Coord)
    ensures Ticked(c).registry == c.registry
  {
  }

  lemma HeardIs(c: Coord, cfg: Config, inp: Input)
    ensures Heard(c, cfg, inp) == Drain(Receive(Ticked(c), cfg, inp.at, inp.frame, inp.tickRejects), inp.beats)
  {
  }

  // A tick of the registration gate does the same to the registry.
  lemma GreetSigns(c: Coord, inp: Input, w: WorkerId, sign: Option<int>)
    requires LatestSign(inp, w, sign)
    ensures Seen(c.registry, Greet(c, inp).registry, inp, w, sign)
  {
    var c1 := Meet(c, inp);
    MeetMet(c, inp, w);
    DrainSigns(c1, inp.beats, w);
    hide Met, Drained, Seen, Meet, LatestSign, Drain;
    MetAndDrained(c.registry, c1.registry, Greet(c, inp).registry, inp, w, sign);
  }

  lemma MeetMet(c: Coord, inp: Input, w: WorkerId)
    ensures Met(c.registry, Meet(c, inp).registry, inp.frame, inp.at, w)
  {
    match inp.frame
    case Some(Result(p, n, u)) => TouchMet(c, u, inp.at, inp.frame, w);
    case Some(Claim(p, u)) => TouchMet(c, u, inp.at, inp.frame, w);
    case Some(Bye(u)) => DepartMet(c, u, inp.tickRejects, inp.at, w);
    case _ =>
    hide MarkDeparted, Touch;
  }

  /******* Who a pass buries *******/

  // A worker that is alive and does not say goodbye outlives the pass exactly
  // when its latest sign of life is no older than the threshold. Then it keeps its
  // completions and is known by that sign; otherwise it is tombstoned and
  // loses them. A newcomer needs a sign, and nobody who is gone comes back.
  lemma PassLives(c: Coord, cfg: Config, start: int, inp: Input, w: WorkerId, sign: Option<int>)
    requires Inv(c, cfg) && LatestSign(inp, w, sign)
    ensures var d := Pass(c, cfg, start, inp);
            if w in c.registry && !c.registry[w].alive then w in d.registry && d.registry[w] == c.registry[w]
            else if w in c.registry && inp.frame == Some(Bye(w)) then
              w in d.registry && d.registry[w] == c.registry[w].(alive := false, departed := true)
            else if w !in c.registry && sign == None then w !in d.registry
            else
              var seen := if sign.Some? then sign.value else c.registry[w].lastSeen;
              && w in d.registry
              && (w in Live(d.registry) <==> inp.t - seen <= cfg.deathThreshold)
              && (w in Live(d.registry) ==>
                    d.registry[w].lastSeen == seen
                    && (w in c.registry ==> c.registry[w].completed <= d.registry[w].completed))
              && (w !in Live(d.registry) ==> Tombstoned(d, w) && d.registry[w].completed == [])
  {
    hide Heard, Swept, Pass, LatestSign, Entries, MayCredit;
    HeardSigns(c, cfg, inp, w, sign);
    HeardKeeps(c, cfg, inp);
    SweptKeeps(c, cfg, inp);
    PassRegistry(c, cfg, start, inp);
    assert RegistryOk(Heard(c, cfg, inp).registry);
    hide Inv;
  }
}
