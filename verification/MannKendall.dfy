// The integer core of the Mann-Kendall trend test: the blocked S statistic, the
// tie correction, and the two guards against a series with no order in it.
module MannKendall {
  import opened Protocol

  function Sign(x: real): int {
    if x > 0.0 then 1 else if x < 0.0 then -1 else 0
  }

  /******* S, defined over all pairs *******/

  // The pairs (i, j) with i < k, for a fixed j.
  function Against(v: seq<real>, x: real): int {
    if v == [] then 0 else Against(v[..|v| - 1], x) + Sign(x - v[|v| - 1])
  }

  // Kendall's S: the sum of the signs of v[j] - v[i] over all pairs i < j.
  function S(v: seq<real>): int {
    if v == [] then 0 else S(v[..|v| - 1]) + Against(v[..|v| - 1], v[|v| - 1])
  }

  // The same pairs taken row by row: row i against the columns from i + 1 to m.
  function Row(v: seq<real>, i: nat, m: nat): int
    requires i < m <= |v|
  {
    if m == i + 1 then 0 else Row(v, i, m - 1) + Sign(v[m - 1] - v[i])
  }

  function Rows(v: seq<real>, k: nat, m: nat): int
    requires k < m <= |v|
  {
    if k == 0 then 0 else Rows(v, k - 1, m) + Row(v, k - 1, m)
  }

  lemma {:induction false} RowsGrow(v: seq<real>, k: nat, m: nat)
    requires k < m < |v|
    ensures Rows(v, k, m + 1) == Rows(v, k, m) + Against(v[..k], v[m])
  {
    if k > 0 {
      RowsGrow(v, k - 1, m);
      assert v[..k][..k - 1] == v[..k - 1];
    }
  }

  // Row by row or pair by pair: the same sum.
  lemma {:induction false} RowsArePairs(v: seq<real>, m: nat)
    requires 1 <= m <= |v|
    ensures Rows(v, m - 1, m) == S(v[..m])
  {
    if m > 1 {
      RowsArePairs(v, m - 1);
      RowsGrow(v, m - 2, m - 1);
      assert v[..m][..m - 1] == v[..m - 1];
      assert v[..m - 1][..m - 2] == v[..m - 2];
      assert Row(v, m - 2, m) == Row(v, m - 2, m - 1) + Sign(v[m - 1] - v[m - 2]) == Sign(v[m - 1] - v[m - 2]);
      assert S(v[..m]) == S(v[..m - 1]) + Against(v[..m - 1], v[m - 1]);
    } else {
      assert v[..1][..0] == [];
    }
  }

  // One block: the masked sum over its rows and all n columns.
  method Block(v: seq<real>, start: nat, end: nat) returns (b: int)
    requires start <= end < |v|
    ensures b == Rows(v, end, |v|) - Rows(v, start, |v|)
  {
    b := 0;
    for i := start to end
      invariant b == Rows(v, i, |v|) - Rows(v, start, |v|)
    {
      ghost var before := b;
      for j := 0 to |v|
        invariant b == before + if j > i then Row(v, i, j) else 0
      {
        if j > i {
          b := b + Sign(v[j] - v[i]);
        }
      }
    }
  }

  method BlockedS(v: seq<real>, chunk: nat) returns (s: int)
    requires chunk > 0
    ensures s == S(v) == |Rising(v)| - |Falling(v)|
  {
    SCounts(v);
    hide Rising, Falling, Tied;
    s := 0;
    var start := 0;
    var n := |v|;
    while start < n - 1
      invariant n > 0 ==> start <= n - 1 + chunk && s == Rows(v, if start < n - 1 then start else n - 1, n)
      invariant n == 0 ==> start == 0 && s == 0
    {
      var end := if start + chunk < n - 1 then start + chunk else n - 1;
      var b := Block(v, start, end);
      s := s + b;
      start := start + chunk;
    }
    if n > 0 {
      RowsArePairs(v, n);
      assert v[..n] == v;
    }
  }

  /******* Ties *******/

  function Count(v: seq<real>, x: real): nat {
    if v == [] then 0 else Count(v[..|v| - 1], x) + if v[|v| - 1] == x then 1 else 0
  }

  // Pairs i < j with v[i] == v[j].
  function TiedPairs(v: seq<real>): nat {
    if v == [] then 0 else TiedPairs(v[..|v| - 1]) + Count(v[..|v| - 1], v[|v| - 1])
  }

  function Pairs(n: nat): nat {
    n * (n - 1) / 2
  }

  // t(t-1)(2t+5), the variance term of a tie group of size t.
  function Term(t: nat): int {
    t * (t - 1) * (2 * t + 5)
  }

  lemma PairsStep(n: nat)
    ensures Pairs(n + 1) == Pairs(n) + n
  {
    assert (n + 1) * n == n * (n - 1) + 2 * n;
  }

  // What the t-th member adds to its group's term.
  function Rise(t: nat): nat {
    6 * t * (t + 2)
  }

  lemma TermStep(t: nat)
    ensures Term(t + 1) == Term(t) + Rise(t)
  {
    calc {
      Term(t + 1);
      (t + 1) * t * (2 * t + 7);
      { assert (t + 1) * t == t * (t - 1) + 2 * t; }
      (t * (t - 1) + 2 * t) * (2 * t + 7);
      t * (t - 1) * (2 * t + 7) + 2 * t * (2 * t + 7);
      { assert t * (t - 1) * (2 * t + 7) == t * (t - 1) * (2 * t + 5) + t * (t - 1) * 2; }
      Term(t) + t * (t - 1) * 2 + 2 * t * (2 * t + 7);
      { assert t * (t - 1) * 2 + 2 * t * (2 * t + 7) == 6 * t * (t + 2); }
      Term(t) + 6 * t * (t + 2);
    }
  }

  // What a tie group of size t contributes to either correction.
  datatype Weight = PairWeight | TermWeight

  function Weigh(weight: Weight, t: nat): int {
    match weight
    case PairWeight => Pairs(t)
    case TermWeight => Term(t)
  }

  // The sum of a weight over the sizes of the tie groups.
  ghost function GroupSum(groups: map<real, nat>, weight: Weight): int {
    if !exists x :: x in groups then 0
    else
      var x :| x in groups;
      Weigh(weight, groups[x]) + GroupSum(groups - {x}, weight)
  }

  lemma NoWeight(weight: Weight)
    ensures Weigh(weight, 0) == 0
  {
  }

  lemma {:induction false} GroupTake(groups: map<real, nat>, weight: Weight, x: real)
    requires x in groups
    ensures GroupSum(groups, weight) == Weigh(weight, groups[x]) + GroupSum(groups - {x}, weight)
    decreases |groups|
  {
    var y :| y in groups && GroupSum(groups, weight) == Weigh(weight, groups[y]) + GroupSum(groups - {y}, weight);
    if y != x {
      GroupTake(groups - {y}, weight, x);
      GroupTake(groups - {x}, weight, y);
      assert groups - {y} - {x} == groups - {x} - {y};
    }
  }

  lemma GroupPut(groups: map<real, nat>, weight: Weight, x: real, n: nat)
    ensures GroupSum(groups[x := n], weight) == GroupSum(groups, weight)
            + Weigh(weight, n) - Weigh(weight, if x in groups then groups[x] else 0)
  {
    NoWeight(weight);
    hide Weigh;
    GroupTake(groups[x := n], weight, x);
    assert groups[x := n] - {x} == groups - {x};
    if x in groups {
      GroupTake(groups, weight, x);
    } else {
      assert groups - {x} == groups;
    }
  }

  ghost predicate IsCounter(v: seq<real>, groups: map<real, nat>) {
    forall x :: Count(v, x) == if x in groups then groups[x] else 0
  }

  // 18 Var(S) before the ties are taken off, minus the ties, value by value.
  function Spread(v: seq<real>): int {
    if v == [] then 0
    else
      var n, c := |v| - 1, Count(v[..|v| - 1], v[|v| - 1]);
      Spread(v[..|v| - 1]) + Rise(n) - Rise(c)
  }

  ghost function Values(v: seq<real>): set<real> {
    set x | x in v
  }

  // What the ties take off 18 Var(S), value by value.
  ghost function TieSum(v: seq<real>, xs: set<real>): int {
    if !exists x :: x in xs then 0
    else
      var x :| x in xs;
      Term(Count(v, x)) + TieSum(v, xs - {x})
  }

  lemma {:induction false} TieTake(v: seq<real>, xs: set<real>, x: real)
    requires x in xs
    ensures TieSum(v, xs) == Term(Count(v, x)) + TieSum(v, xs - {x})
    decreases |xs|
  {
    hide Term, Count;
    var y :| y in xs && TieSum(v, xs) == Term(Count(v, y)) + TieSum(v, xs - {y});
    if y != x {
      TieTake(v, xs - {y}, x);
      TieTake(v, xs - {x}, y);
      assert xs - {y} - {x} == xs - {x} - {y};
    }
  }

  lemma {:induction false} GroupsAreTies(v: seq<real>, groups: map<real, nat>)
    requires forall x :: x in groups ==> groups[x] == Count(v, x)
    ensures GroupSum(groups, TermWeight) == TieSum(v, groups.Keys)
    decreases |groups|
  {
    if x :| x in groups {
      hide Term, Count;
      GroupTake(groups, TermWeight, x);
      TieTake(v, groups.Keys, x);
      assert (groups - {x}).Keys == groups.Keys - {x};
      GroupsAreTies(v, groups - {x});
    }
  }

  // What Counter has after a prefix of the series.
  ghost predicate Grouped(v: seq<real>, groups: map<real, nat>) {
    && IsCounter(v, groups)
    && GroupSum(groups, PairWeight) == TiedPairs(v)
    && Term(|v|) - GroupSum(groups, TermWeight) == Spread(v)
  }

  lemma CounterStep(v: seq<real>, x: real, groups: map<real, nat>)
    requires IsCounter(v, groups)
    ensures IsCounter(v + [x], groups[x := Count(v, x) + 1]) && Count(v, x) == if x in groups then groups[x] else 0
  {
    var w := v + [x];
    assert w[..|v|] == v;
    forall y ensures Count(w, y) == if y in groups[x := Count(v, x) + 1] then groups[x := Count(v, x) + 1][y] else 0 {
      assert Count(v, y) == if y in groups then groups[y] else 0;
    }
  }

  lemma SumsStep(v: seq<real>, x: real)
    ensures TiedPairs(v + [x]) == TiedPairs(v) + Count(v, x)
    ensures Spread(v + [x]) == Spread(v) + Rise(|v|) - Rise(Count(v, x))
  {
    hide Rise;
    assert (v + [x])[..|v|] == v;
  }

  lemma GroupedStep(v: seq<real>, x: real, groups: map<real, nat>)
    requires Grouped(v, groups)
    ensures Grouped(v + [x], groups[x := (if x in groups then groups[x] else 0) + 1])
  {
    hide Term, Pairs, Rise, GroupSum, IsCounter, TiedPairs, Spread, Count;
    CounterStep(v, x, groups);
    SumsStep(v, x);
    var c := Count(v, x);
    GroupPut(groups, PairWeight, x, c + 1);
    GroupPut(groups, TermWeight, x, c + 1);
    PairsStep(c);
    TermStep(c);
    TermStep(|v|);
  }

  // collections.Counter, and what its group sizes add up to.
  method Counter(v: seq<real>) returns (groups: map<real, nat>)
    ensures IsCounter(v, groups) && groups.Keys == Values(v)
    ensures GroupSum(groups, PairWeight) == TiedPairs(v)
    ensures Term(|v|) - GroupSum(groups, TermWeight) == Spread(v)
  {
    groups := map[];
    assert Grouped([], groups);
    for i := 0 to |v|
      invariant Grouped(v[..i], groups) && groups.Keys == Values(v[..i])
    {
      hide Grouped;
      assert v[..i + 1] == v[..i] + [v[i]];
      GroupedStep(v[..i], v[i], groups);
      groups := groups[v[i] := (if v[i] in groups then groups[v[i]] else 0) + 1];
    }
    assert v[..|v|] == v;
  }

  /******* What S and the ties count *******/

  // Positions, and pairs of positions, told apart by comparing values only.
  ghost function Below(v: seq<real>, x: real): set<nat> {
    set i: nat | i < |v| && v[i] < x
  }

  ghost function Above(v: seq<real>, x: real): set<nat> {
    set i: nat | i < |v| && x < v[i]
  }

  ghost function Equal(v: seq<real>, x: real): set<nat> {
    set i: nat | i < |v| && v[i] == x
  }

  ghost function Rising(v: seq<real>): set<(nat, nat)> {
    set i: nat, j: nat | i < j < |v| && v[i] < v[j] :: (i, j)
  }

  ghost function Falling(v: seq<real>): set<(nat, nat)> {
    set i: nat, j: nat | i < j < |v| && v[j] < v[i] :: (i, j)
  }

  ghost function Tied(v: seq<real>): set<(nat, nat)> {
    set i: nat, j: nat | i < j < |v| && v[i] == v[j] :: (i, j)
  }

  lemma OneMore(less: set<nat>, more: set<nat>, n: nat, yes: bool)
    requires n !in less && more == less + if yes then {n} else {}
    ensures |more| == |less| + if yes then 1 else 0
  {
  }

  lemma {:induction false} AgainstCounts(v: seq<real>, x: real)
    ensures Against(v, x) == |Below(v, x)| - |Above(v, x)|
    ensures Count(v, x) == |Equal(v, x)|
    ensures |Below(v, x)| + |Above(v, x)| + |Equal(v, x)| == |v|
  {
    if v != [] {
      var n := |v| - 1;
      var w := v[..n];
      AgainstCounts(w, x);
      PositionsGrow(v, x);
      OneMore(Below(w, x), Below(v, x), n, v[n] < x);
      OneMore(Above(w, x), Above(v, x), n, x < v[n]);
      OneMore(Equal(w, x), Equal(v, x), n, v[n] == x);
      hide Below, Above, Equal;
    }
  }

  lemma PositionsGrow(v: seq<real>, x: real)
    requires v != []
    ensures var n, w := |v| - 1, v[..|v| - 1];
            && n !in Below(w, x) && Below(v, x) == Below(w, x) + (if v[n] < x then {n} else {})
            && n !in Above(w, x) && Above(v, x) == Above(w, x) + (if x < v[n] then {n} else {})
            && n !in Equal(w, x) && Equal(v, x) == Equal(w, x) + (if v[n] == x then {n} else {})
  {
  }

  // The pairs that end in the last position.
  ghost function With(at: set<nat>, n: nat): set<(nat, nat)> {
    set i | i in at :: (i, n)
  }

  lemma {:induction false} WithCount(at: set<nat>, n: nat)
    ensures |With(at, n)| == |at|
    decreases |at|
  {
    if i :| i in at {
      WithCount(at - {i}, n);
      assert With(at, n) == With(at - {i}, n) + {(i, n)};
    } else {
      assert With(at, n) == {};
    }
  }

  lemma PairsGrow(v: seq<real>)
    requires v != []
    ensures var n, w := |v| - 1, v[..|v| - 1];
            && |Rising(v)| == |Rising(w)| + |Below(w, v[n])|
            && |Falling(v)| == |Falling(w)| + |Above(w, v[n])|
            && |Tied(v)| == |Tied(w)| + |Equal(w, v[n])|
  {
    var n, w := |v| - 1, v[..|v| - 1];
    assert Rising(v) == Rising(w) + With(Below(w, v[n]), n);
    assert Falling(v) == Falling(w) + With(Above(w, v[n]), n);
    assert Tied(v) == Tied(w) + With(Equal(w, v[n]), n);
    WithCount(Below(w, v[n]), n);
    WithCount(Above(w, v[n]), n);
    WithCount(Equal(w, v[n]), n);
    assert Rising(w) !! With(Below(w, v[n]), n) && Falling(w) !! With(Above(w, v[n]), n)
           && Tied(w) !! With(Equal(w, v[n]), n);
  }

  // S is the number of rising pairs less the number of falling ones, the ties are
  // the pairs that do neither, and together they are all pairs.
  lemma {:induction false} SCounts(v: seq<real>)
    ensures S(v) == |Rising(v)| - |Falling(v)|
    ensures TiedPairs(v) == |Tied(v)|
    ensures |Rising(v)| + |Falling(v)| + |Tied(v)| == Pairs(|v|)
  {
    if v != [] {
      var n := |v| - 1;
      SCounts(v[..n]);
      PairsGrow(v);
      AgainstCounts(v[..n], v[n]);
      PairsStep(n);
      hide Rising, Falling, Tied, Below, Above, Equal, Pairs;
    } else {
      assert Rising(v) == {} && Falling(v) == {} && Tied(v) == {};
    }
  }

  // The two ends of the scale: S is all pairs exactly for a series that only
  // rises, and minus all pairs exactly for one that only falls.
  lemma SExtremes(v: seq<real>)
    ensures S(v) == Pairs(|v|) <==> forall i, j :: 0 <= i < j < |v| ==> v[i] < v[j]
    ensures S(v) + Pairs(|v|) == 0 <==> forall i, j :: 0 <= i < j < |v| ==> v[j] < v[i]
  {
    SCounts(v);
    EmptyPairs(v);
    hide S, Pairs, Rising, Falling, Tied;
  }

  lemma EmptyPairs(v: seq<real>)
    ensures |Rising(v)| == 0 && |Tied(v)| == 0 <==> forall i, j :: 0 <= i < j < |v| ==> v[j] < v[i]
    ensures |Falling(v)| == 0 && |Tied(v)| == 0 <==> forall i, j :: 0 <= i < j < |v| ==> v[i] < v[j]
  {
    if |Tied(v)| == 0 {
      forall i: nat, j: nat | i < j < |v| ensures v[i] != v[j] {
        assert (i, j) !in Tied(v);
      }
      if |Rising(v)| == 0 {
        forall i: nat, j: nat | i < j < |v| ensures v[j] < v[i] {
          assert (i, j) !in Rising(v);
        }
      }
      if |Falling(v)| == 0 {
        forall i: nat, j: nat | i < j < |v| ensures v[i] < v[j] {
          assert (i, j) !in Falling(v);
        }
      }
    }
    if forall i, j :: 0 <= i < j < |v| ==> v[j] < v[i] {
      assert Rising(v) == {} && Tied(v) == {};
    }
    if forall i, j :: 0 <= i < j < |v| ==> v[i] < v[j] {
      assert Falling(v) == {} && Tied(v) == {};
    }
  }

  /******* What the numbers obey *******/

  ghost predicate AllTied(v: seq<real>) {
    forall i, j :: 0 <= i < j < |v| ==> v[i] == v[j]
  }

  lemma {:induction false} CountBound(v: seq<real>, x: real)
    ensures Count(v, x) <= |v|
    ensures Count(v, x) == |v| <==> forall i :: 0 <= i < |v| ==> v[i] == x
    ensures -(|v| - Count(v, x)) <= Against(v, x) <= |v| - Count(v, x)
  {
    if v != [] {
      CountBound(v[..|v| - 1], x);
    }
  }

  lemma AllTiedStep(v: seq<real>)
    requires v != []
    ensures var n := |v| - 1;
            AllTied(v) <==> AllTied(v[..n]) && forall i :: 0 <= i < n ==> v[..n][i] == v[n]
  {
    var n := |v| - 1;
    if AllTied(v[..n]) && forall i :: 0 <= i < n ==> v[..n][i] == v[n] {
      forall i, j | 0 <= i < j < |v| ensures v[i] == v[j] {
        assert v[i] == v[..n][i];
        assert j < n ==> v[j] == v[..n][j];
      }
    }
  }

  // Only untied pairs count: |S| <= D - T, and D - T vanishes exactly when
  // every value is tied.
  lemma {:induction false} SBound(v: seq<real>)
    ensures TiedPairs(v) <= Pairs(|v|)
    ensures -(Pairs(|v|) - TiedPairs(v)) <= S(v) <= Pairs(|v|) - TiedPairs(v)
    ensures Pairs(|v|) == TiedPairs(v) <==> AllTied(v)
  {
    if v != [] {
      var n := |v| - 1;
      SBound(v[..n]);
      CountBound(v[..n], v[n]);
      PairsStep(n);
      AllTiedStep(v);
      hide Pairs, AllTied, Against, Count;
    }
  }

  // |tau| <= 1, without the square root.
  lemma TauInRange(v: seq<real>)
    ensures S(v) * S(v) <= Pairs(|v|) * (Pairs(|v|) - TiedPairs(v))
  {
    SBound(v);
    SquareBound(S(v), Pairs(|v|), Pairs(|v|) - TiedPairs(v));
  }

  // tau itself, for the square root the code divides by.
  lemma TauBounded(v: seq<real>, root: real)
    requires root > 0.0 && root * root == (Pairs(|v|) * (Pairs(|v|) - TiedPairs(v))) as real
    ensures -1.0 <= S(v) as real / root <= 1.0
  {
    hide *;
    TauInRange(v);
    IntegerOverRoot(S(v), Pairs(|v|) * (Pairs(|v|) - TiedPairs(v)), root);
  }

  lemma IntegerOverRoot(s: int, r: int, root: real)
    requires s * s <= r && root > 0.0 && root * root == r as real
    ensures -1.0 <= s as real / root <= 1.0
  {
    var square := s * s;
    assert square as real <= r as real;
    SquareOf(s);
    WithinRoot(s as real, root);
  }

  lemma SquareOf(s: int)
    ensures (s * s) as real == s as real * s as real
  {
  }

  lemma ProductPositive(a: real, b: real)
    requires a > 0.0 && b > 0.0
    ensures a * b > 0.0
  {
  }

  lemma BiggerSquare(a: real, b: real)
    requires a > b >= 0.0
    ensures a * a > b * b
  {
    ProductPositive(a - b, a + b);
    assert (a - b) * (a + b) == a * a - b * b;
  }

  lemma RatioBound(s: real, root: real)
    requires root > 0.0 && -root <= s <= root
    ensures -1.0 <= s / root <= 1.0
  {
    var q := s / root;
    assert q * root == s;
    if q > 1.0 {
      ProductPositive(q - 1.0, root);
    } else if q < -1.0 {
      ProductPositive(-1.0 - q, root);
    }
  }

  lemma WithinRoot(s: real, root: real)
    requires root > 0.0 && s * s <= root * root
    ensures -1.0 <= s / root <= 1.0
  {
    if s > root {
      BiggerSquare(s, root);
    } else if -s > root {
      BiggerSquare(-s, root);
    }
    RatioBound(s, root);
  }

  lemma SquareBound(s: int, d: int, u: int)
    requires -u <= s <= u && 0 <= u <= d
    ensures s * s <= d * u
  {
    var a := if s >= 0 then s else -s;
    assert s * s == a * a;
    Monotone(a, u, a);
    Monotone(a, u, u);
    Monotone(u, d, u);
  }

  lemma Monotone(a: int, b: int, c: int)
    requires a <= b && 0 <= c
    ensures a * c <= b * c && c * a <= c * b
  {
  }

  lemma {:induction false} StepIncreases(c: nat, n: nat)
    requires c <= n
    ensures Rise(c) <= Rise(n)
    ensures Rise(c) == Rise(n) <==> c == n
    decreases n
  {
    if c < n {
      StepIncreases(c, n - 1);
      assert Rise(n) == Rise(n - 1) + 12 * n + 6;
    }
  }

  // The variance is never negative, and zero exactly when every value is tied.
  lemma {:induction false} SpreadBound(v: seq<real>)
    ensures Spread(v) >= 0
    ensures Spread(v) == 0 <==> AllTied(v)
  {
    if v != [] {
      var n := |v| - 1;
      SpreadBound(v[..n]);
      CountBound(v[..n], v[n]);
      AllTiedStep(v);
      StepIncreases(Count(v[..n], v[n]), n);
      hide AllTied, Count, Rise;
    }
  }

  // Reading the series backwards turns the trend around.
  lemma {:induction false} ReversedTrend(v: seq<real>)
    ensures S(Reversed(v)) == -S(v)
  {
    if v != [] {
      var n := |v| - 1;
      ReversedTrend(v[..n]);
      Prepended(Reversed(v[..n]), v[n]);
      AgainstReversed(v[..n], v[n]);
    }
  }

  function Reversed(v: seq<real>): seq<real> {
    if v == [] then [] else [v[|v| - 1]] + Reversed(v[..|v| - 1])
  }

  lemma {:induction false} Prepended(v: seq<real>, x: real)
    ensures S([x] + v) == S(v) - Against(v, x)
  {
    if v != [] {
      var n := |v| - 1;
      Prepended(v[..n], x);
      assert ([x] + v)[..n + 1] == [x] + v[..n];
      AgainstPrepended(v[..n], x, v[n]);
    } else {
      assert ([x] + v)[..0] == [];
    }
  }

  lemma {:induction false} AgainstPrepended(v: seq<real>, x: real, y: real)
    ensures Against([x] + v, y) == Against(v, y) + Sign(y - x)
  {
    if v != [] {
      assert ([x] + v)[..|v|] == [x] + v[..|v| - 1];
      AgainstPrepended(v[..|v| - 1], x, y);
    } else {
      assert ([x] + v)[..0] == [];
    }
  }

  lemma {:induction false} AgainstReversed(v: seq<real>, x: real)
    ensures Against(Reversed(v), x) == Against(v, x)
  {
    if v != [] {
      AgainstReversed(v[..|v| - 1], x);
      AgainstPrepended(Reversed(v[..|v| - 1]), v[|v| - 1], x);
    }
  }

  /******* The two tests *******/

  datatype Ratio = Ratio(numerator: int, radicand: int)

  method SumOf(groups: map<real, nat>, weight: Weight) returns (sum: int)
    ensures sum == GroupSum(groups, weight)
  {
    sum := 0;
    var todo := groups;
    while exists x :: x in todo
      invariant sum + GroupSum(todo, weight) == GroupSum(groups, weight)
      decreases |todo|
    {
      var x :| x in todo;
      GroupTake(todo, weight, x);
      sum := sum + Weigh(weight, todo[x]);
      todo := todo - {x};
    }
  }

  // tau is numerator / sqrt(radicand); None stands for the degenerate 0.0.
  method Tau(v: seq<real>, chunk: nat) returns (r: Option<Ratio>)
    requires chunk > 0
    ensures r.None? <==> |v| < 2 || AllTied(v)
    ensures r.Some? ==> r.value.numerator == S(v) == |Rising(v)| - |Falling(v)|
    ensures r.Some? ==> r.value.radicand == Pairs(|v|) * (Pairs(|v|) - TiedPairs(v)) > 0
    ensures r.Some? ==> r.value.numerator * r.value.numerator <= r.value.radicand
  {
    if |v| < 2 {
      return None;
    }
    var d := Pairs(|v|);
    var groups := Counter(v);
    var t := SumOf(groups, PairWeight);
    SBound(v);
    TauInRange(v);
    hide Pairs, AllTied, S;
    if d - t <= 0 {
      return None;
    }
    var s := BlockedS(v, chunk);
    Positive(d, d - t);
    return Some(Ratio(s, d * (d - t)));
  }

  lemma Positive(a: int, b: int)
    requires a > 0 && b > 0
    ensures a * b > 0
  {
  }

  // z is numerator / sqrt(radicand / 18); None stands for the degenerate p of 1.0.
  method PValue(v: seq<real>, chunk: nat) returns (r: Option<Ratio>)
    requires chunk > 0
    ensures r.None? <==> |v| < 2 || AllTied(v)
    ensures r.Some? ==> r.value.radicand == Spread(v) > 0
    ensures r.Some? ==> r.value.radicand == |v| * (|v| - 1) * (2 * |v| + 5) - TieSum(v, Values(v))
    ensures S(v) == |Rising(v)| - |Falling(v)|
    ensures r.Some? ==> r.value.numerator == S(v) - (if S(v) > 0 then 1 else if S(v) < 0 then -1 else 0)
  {
    if |v| < 2 {
      return None;
    }
    var s := BlockedS(v, chunk);
    var groups := Counter(v);
    var ties := SumOf(groups, TermWeight);
    GroupsAreTies(v, groups);
    var n := |v|;
    assert n * (n - 1) * (2 * n + 5) == Term(n);
    var spread := n * (n - 1) * (2 * n + 5) - ties;
    SpreadBound(v);
    hide Term, AllTied, S;
    if spread <= 0 {
      return None;
    }
    return Some(Ratio(if s > 0 then s - 1 else if s < 0 then s + 1 else 0, spread));
  }
}
