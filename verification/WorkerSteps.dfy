// The worker's method makes only steps of the composed system: what the class
// does to one item is a path of ProcStep from idle to idle.
module WorkerSteps {
  import opened Protocol
  import opened Extractor
  import opened Store
  import opened Pipeline
  import opened System
  import W = Worker

  ghost predicate Reaches(world: World, w: WorkerId, pr: Proc, acts: seq<Act>, qr: Proc)
    requires Sound(world)
  {
    if acts == [] then pr == qr
    else
      var before, last := acts[..|acts| - 1], acts[|acts| - 1];
      exists mid :: Reaches(world, w, pr, before, mid) && ProcStep(world, w, last, mid, qr)
  }

  lemma OneMore(world: World, w: WorkerId, pr: Proc, acts: seq<Act>, mid: Proc, a: Act, qr: Proc)
    requires Sound(world) && Reaches(world, w, pr, acts, mid) && ProcStep(world, w, a, mid, qr)
    ensures Reaches(world, w, pr, acts + [a], qr)
  {
    assert (acts + [a])[..|acts|] == acts;
    hide ProcStep;
  }

  // The file a path names, seen by the worker.
  ghost function FileOf(world: World, p: Path): W.DayFile {
    W.DayFile(if p in world.disk then Some(world.disk[p]) else None, false)
  }

  // The claim and k batches of the file.
  ghost function Upto(w: WorkerId, p: Path, k: nat): seq<Act> {
    if k == 0 then [Take(w, p)] else Upto(w, p, k - 1) + [Write(w)]
  }

  ghost function Midway(world: World, w: WorkerId, pr: Proc, p: Path, k: nat): Proc
    requires Sound(world) && (k > 0 ==> p in world.disk && k <= |FileBatches(world, p)|)
    requires p in world.disk ==> k <= |FileBatches(world, p)| && AllCastable(world.cast, FileBatches(world, p)[..k])
  {
    pr.(pc := Cleaning(p, k), pipe := pr.pipe + [Claim(p, w)],
        store := if p in world.disk
                 then TableAfter(world.cast, world.machine, pr.store, FileBatches(world, p)[..k]) else pr.store)
  }

  lemma {:induction false} WritesAreSteps(world: World, w: WorkerId, pr: Proc, p: Path, k: nat)
    requires Sound(world) && pr.pc.Idle? && (k > 0 ==> p in world.disk)
    requires p in world.disk ==> k <= |FileBatches(world, p)| && AllCastable(world.cast, FileBatches(world, p)[..k])
    ensures Reaches(world, w, pr, Upto(w, p, k), Midway(world, w, pr, p, k))
  {
    if k == 0 {
      hide FileBatches, AllCastable;
      if p in world.disk { assert FileBatches(world, p)[..0] == []; }
      assert Reaches(world, w, pr, [], pr);
      assert [Take(w, p)] == [] + [Take(w, p)];
      assert ProcStep(world, w, Take(w, p), pr, Midway(world, w, pr, p, 0));
      OneMore(world, w, pr, [], pr, Take(w, p), Midway(world, w, pr, p, 0));
    } else {
      var bs := FileBatches(world, p);
      CastablePrefix(world.cast, bs, k - 1);
      WritesAreSteps(world, w, pr, p, k - 1);
      TableAfterStep(world.cast, world.machine, pr.store, bs, k - 1);
      hide FileBatches, AllCastable, TableAfter, Reaches;
      var mid, next := Midway(world, w, pr, p, k - 1), Midway(world, w, pr, p, k);
      assert ProcStep(world, w, Write(w), mid, next);
      OneMore(world, w, pr, Upto(w, p, k - 1), mid, Write(w), next);
    }
  }

  lemma CastablePrefix(cast: Cast, bs: seq<seq<Event>>, k: nat)
    requires k < |bs| && AllCastable(cast, bs[..k + 1])
    ensures AllCastable(cast, bs[..k]) && Castable(cast, bs[k])
  {
    assert bs[..k + 1][k] == bs[k];
    forall i | 0 <= i < k ensures Castable(cast, bs[..k][i]) { assert bs[..k][i] == bs[..k + 1][i]; }
  }

  lemma LastAct(world: World, w: WorkerId, pr: Proc, p: Path, k: nat, a: Act, qr: Proc)
    requires Sound(world) && pr.pc.Idle? && (k > 0 ==> p in world.disk)
    requires p in world.disk ==> k <= |FileBatches(world, p)| && AllCastable(world.cast, FileBatches(world, p)[..k])
    requires ProcStep(world, w, a, Midway(world, w, pr, p, k), qr)
    ensures Reaches(world, w, pr, Upto(w, p, k) + [a], qr)
  {
    hide ProcStep, Reaches, Midway;
    WritesAreSteps(world, w, pr, p, k);
    OneMore(world, w, pr, Upto(w, p, k), Midway(world, w, pr, p, k), a, qr);
  }

  ghost function Reported(w: WorkerId, pr: Proc, p: Path, code: int, u: Table): Proc {
    pr.(pipe := pr.pipe + [Claim(p, w), Result(p, code, w)], store := u)
  }

  lemma PipeReported(w: WorkerId, pr: Proc, p: Path, code: int, u: Table)
    ensures pr.pipe + [Claim(p, w)] + [Result(p, code, w)] == Reported(w, pr, p, code, u).pipe
  {
  }

  lemma UnreadableIsSteps(world: World, w: WorkerId, pr: Proc, p: Path)
    requires Sound(world) && pr.pc.Idle? && p !in world.disk
    ensures Reaches(world, w, pr, Upto(w, p, 0) + [Fail(w)], Reported(w, pr, p, UNREADABLE, pr.store))
  {
    hide Reaches;
    PipeReported(w, pr, p, UNREADABLE, pr.store);
    LastAct(world, w, pr, p, 0, Fail(w), Reported(w, pr, p, UNREADABLE, pr.store));
  }

  lemma ReadIsSteps(world: World, w: WorkerId, pr: Proc, p: Path, k: nat, code: int, u: Table)
    requires Sound(world) && pr.pc.Idle? && p in world.disk && k <= |FileBatches(world, p)|
    requires W.Persisted(world.cast, world.machine, FileBatches(world, p), pr.store, k, u)
    requires code == if k == |FileBatches(world, p)| then |Stream(world, p)| else if k > 0 then PARTIAL else UNREADABLE
    ensures Reaches(world, w, pr, Upto(w, p, k) + [if k == |FileBatches(world, p)| then Finish(w) else Fail(w)],
                    Reported(w, pr, p, code, u))
  {
    hide Reaches, FileBatches, Stream, TableAfter, AllCastable, Concat;
    WholeStream(world, p);
    PipeReported(w, pr, p, code, u);
    LastAct(world, w, pr, p, k, if k == |FileBatches(world, p)| then Finish(w) else Fail(w),
            Reported(w, pr, p, code, u));
  }

  // What the class reports for an item, from table to table, is a claim, some
  // batches, and a final report of the composed system.
  lemma ItemIsSteps(world: World, w: WorkerId, pr: Proc, weather: W.Weather, d: W.Done, u: Table)
    requires Sound(world) && pr.pc.Idle? && W.Openable(FileOf(world, d.path), world.heads)
    requires W.ItemDone(world.cast, world.machine, world.heads, FileOf(world, d.path), weather, pr.store, d, u)
    ensures exists acts :: Reaches(world, w, pr, acts, Reported(w, pr, d.path, d.code, u))
  {
    hide Reaches, Reported;
    var p := d.path;
    if p !in world.disk {
      UnreadableIsSteps(world, w, pr, p);
    } else {
      hide Transitions, TableAfter, AllCastable, Batches, StopsAt, Beats;
      var k: nat :| W.StoppedAfter(world.cast, world.machine, world.heads, world.disk[p], false, weather, pr.store, d,
                                   u, k);
      ReadIsSteps(world, w, pr, p, k, d.code, u);
    }
  }
}
