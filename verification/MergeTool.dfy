// mas_merge: one bulk attempt, then source by source with the unreadable ones skipped.
module MergeTool {
  import opened Store

  lemma {:induction false} TablesCount(sources: seq<Source>)
    ensures |Tables(sources)| <= |sources|
    ensures |Tables(sources)| == |sources| <==> AllReadable(sources)
  {
    if sources != [] {
      var n := |sources| - 1;
      TablesCount(sources[..n]);
      assert sources == sources[..n] + [sources[n]];
      if AllReadable(sources) {
        assert AllReadable(sources[..n]) by {
          forall i | 0 <= i < n ensures sources[..n][i].Readable? { assert sources[..n][i] == sources[i]; }
        }
      } else {
        var i :| 0 <= i < |sources| && !sources[i].Readable?;
        if i < n { assert sources[..n][i] == sources[i]; }
      }
    }
  }

  lemma PrefixTables(sources: seq<Source>, n: nat)
    requires n <= |sources|
    ensures forall t :: t in Tables(sources[..n]) ==> t in Tables(sources)
  {
    forall t | t in Tables(sources[..n]) ensures t in Tables(sources) {
      TablesMember(sources[..n], t);
      TablesMember(sources, t);
    }
  }

  // Whatever the bulk attempt did before failing, the destination ends as the
  // union of itself and the readable sources, and every source is counted once.
  method MasMerge(dst: DuckDbStore, sources: seq<Source>) returns (merged: nat, skipped: nat, exitCode: int)
    requires dst.Valid()
    modifies dst`table, dst`attached
    ensures dst.Valid()
    ensures IsUnion(old(dst.table), Tables(sources), dst.table)
    ensures merged == |Tables(sources)| && merged + skipped == |sources|
    ensures exitCode == if sources != [] && Tables(sources) == [] then 1 else 0
  {
    merged, skipped := 0, 0;
    ghost var before := dst.table;
    TablesCount(sources);
    var bulk := dst.MergeAll(sources);
    if bulk {
      merged := |sources|;
    } else {
      ghost var mid, n := dst.table, 0;
      n :| 0 <= n <= |sources| && IsUnion(before, Tables(sources[..n]), mid);
      NothingMerged(mid);
      for i := 0 to |sources|
        invariant dst.Valid() && IsUnion(mid, Tables(sources[..i]), dst.table)
        invariant merged == |Tables(sources[..i])| && merged + skipped == i
      {
        TablesStep(sources, i);
        ghost var t := dst.table;
        var ok := dst.MergeFrom(sources[i]);
        if ok {
          UnionStep(mid, Tables(sources[..i]), t, sources[i].table);
          merged := merged + 1;
        } else {
          skipped := skipped + 1;
        }
      }
      assert sources[..|sources|] == sources;
      PrefixTables(sources, n);
      UnionResumed(before, Tables(sources[..n]), mid, Tables(sources), dst.table);
    }
    exitCode := if merged == 0 && sources != [] then 1 else 0;
  }

  // Bulk, repeated or resumed, in any order, with any unreadable sources among
  // them: the same readable tables give the same result when shared keys agree,
  // and the same keys in any case.
  lemma MergesCoincide(base: Table, sources: seq<Source>, others: seq<Source>, x: Table, y: Table)
    requires forall t :: Readable(t) in sources <==> Readable(t) in others
    requires IsUnion(base, Tables(sources), x) && IsUnion(base, Tables(others), y)
    ensures x.Keys == y.Keys
    ensures AllAgree(base, Tables(sources)) ==> x == y
  {
    forall t ensures t in Tables(sources) <==> t in Tables(others) {
      TablesMember(sources, t);
      TablesMember(others, t);
    }
    SameKeys(base, Tables(sources), Tables(others), x, y);
    SameKeys(base, Tables(others), Tables(sources), y, x);
    if AllAgree(base, Tables(sources)) {
      UnionUnique(base, Tables(sources), Tables(others), x, y);
    }
  }

  lemma SameKeys(base: Table, ts: seq<Table>, us: seq<Table>, x: Table, y: Table)
    requires forall t :: t in ts ==> t in us
    requires IsUnion(base, ts, x) && IsUnion(base, us, y)
    ensures x.Keys <= y.Keys
  {
    forall k | k in x ensures k in y {
      if k !in base {
        var i :| 0 <= i < |ts| && k in ts[i];
        assert ts[i] in us;
        var j :| 0 <= j < |us| && us[j] == ts[i];
        assert k in us[j];
      }
    }
  }
}
