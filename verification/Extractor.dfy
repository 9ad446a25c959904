// The dedup transform: raw polls in, one event per changed counter out. One
// definition of the stream, and the four programs that are claimed to emit it.
module Extractor {
  import opened Protocol

  const NUM_HEADS: nat := 36
  const MAX_EXACT: real := 9007199254740992.0   // 2^53
  const INT_MAX: int := 0x7fff_ffff

  // One poll. Counts are integral; torque and status are uninterpreted reals.
  datatype RawRow = RawRow(ts: string, count: seq<int>, torque: seq<real>, status: seq<real>)

  datatype Event = Event(head: int, ts: string, capSeq: int, torque: real, status: real,
                         delta: int, isFault: bool, aggregated: bool, reset: bool)

  // The C++ and Python programs differ in two places only.
  datatype Dialect = Cpp | Python

  predicate RowShaped(row: RawRow, heads: nat) {
    |row.count| == |row.torque| == |row.status| == heads
  }

  predicate Shaped(rows: seq<RawRow>, heads: nat) {
    forall i :: 0 <= i < |rows| ==> RowShaped(rows[i], heads)
  }

  /******* Scalar policies *******/

  function Trunc(x: real): int {
    if x >= 0.0 then x.Floor else -((-x).Floor)
  }

  // C++ remainder: the sign follows the dividend.
  function RemCpp(a: int, b: nat): int
    requires b > 0
  {
    if a >= 0 then a % b else -((-a) % b)
  }

  predicate IsRejectCpp(status: real) {
    !(-MAX_EXACT <= status <= MAX_EXACT) || RemCpp(Trunc(status), 2) != 0
  }

  predicate IsRejectPython(status: real) {
    Trunc(status) % 2 != 0
  }

  function SaturatedDelta(cur: int, prev: int): int {
    var jump := cur - prev;
    if jump > 0 then (if jump > INT_MAX then INT_MAX else jump) else 0
  }

  function Delta(lang: Dialect, cur: int, prev: int): int {
    match lang
    case Cpp => SaturatedDelta(cur, prev)
    case Python => if cur > prev then cur - prev else 0
  }

  predicate IsReject(lang: Dialect, status: real) {
    match lang
    case Cpp => IsRejectCpp(status)
    case Python => IsRejectPython(status)
  }

  // A status cell as a double holds it.
  datatype Double = Finite(value: real) | Infinite | NotANumber

  const MAX_FLOAT: real := 340282346638528859811704183484516925440.0

  // The loader's test: what survives the narrowing to float.
  predicate IsValidReal(cell: Double) {
    cell.Finite? && -MAX_FLOAT <= cell.value <= MAX_FLOAT
  }

  // The C++ guard reads everything it cannot be sure of as a reject...
  predicate RejectedCpp(cell: Double) {
    !cell.Finite? || IsRejectCpp(cell.value)
  }

  // ...where Python's int() raises on what is not finite.
  function RejectedPython(cell: Double): Option<bool> {
    if cell.Finite? then Some(IsRejectPython(cell.value)) else None
  }

  lemma RejectsAgreeOnReals(status: real)
    ensures IsRejectCpp(status) == IsRejectPython(status)
       <==> (-MAX_EXACT <= status <= MAX_EXACT || Trunc(status) % 2 != 0)
  {
    assert RemCpp(Trunc(status), 2) != 0 <==> Trunc(status) % 2 != 0;
  }

  // The two readings of the status bitmask agree exactly on finite statuses that
  // the range guard admits, and on odd ones beyond it.
  lemma RejectsAgree(cell: Double)
    ensures RejectedPython(cell) == Some(RejectedCpp(cell))
       <==> cell.Finite? && (-MAX_EXACT <= cell.value <= MAX_EXACT || Trunc(cell.value) % 2 != 0)
  {
    if cell.Finite? {
      RejectsAgreeOnReals(cell.value);
    }
  }

  // The loader lets statuses through on which they do not: the first double
  // above 2^53 is one.
  lemma RejectsDisagree()
    ensures var cell := Finite(9007199254740994.0);
            IsValidReal(cell) && RejectedCpp(cell) && RejectedPython(cell) == Some(false)
  {
    assert Trunc(9007199254740994.0) == 9007199254740994;
  }

  // Within the loader's count range the jump fits in 64 bits, and the saturated
  // delta in 32.
  lemma NoOverflow(cur: int, prev: int)
    requires -0x20_0000_0000_0000 <= cur <= 0x20_0000_0000_0000 && -0x20_0000_0000_0000 <= prev <= 0x20_0000_0000_0000
    ensures -0x8000_0000_0000_0000 <= cur - prev < 0x8000_0000_0000_0000
    ensures 0 <= SaturatedDelta(cur, prev) <= INT_MAX
    ensures SaturatedDelta(cur, prev) == 0 <==> cur <= prev
  {
  }

  /******* The stream *******/

  function MakeEvent(lang: Dialect, row: RawRow, h: nat, prev: int): Event
    requires h < |row.count| && h < |row.torque| && h < |row.status|
  {
    var delta := Delta(lang, row.count[h], prev);
    Event(h + 1, row.ts, row.count[h], row.torque[h], row.status[h], delta,
          IsReject(lang, row.status[h]), delta > 1, row.count[h] < prev)
  }

  // Heads below k whose counter differs from the previous poll, in head order.
  function RowEvents(lang: Dialect, prev: seq<int>, row: RawRow, k: nat): seq<Event>
    requires k <= |prev| && k <= |row.count| && k <= |row.torque| && k <= |row.status|
  {
    if k == 0 then []
    else
      RowEvents(lang, prev, row, k - 1) + (if row.count[k - 1] == prev[k - 1] then []
                                           else [MakeEvent(lang, row, k - 1, prev[k - 1])])
  }

  // Every change between consecutive polls, row by row: the first poll seeds.
  function Transitions(lang: Dialect, rows: seq<RawRow>, heads: nat): seq<Event>
    requires Shaped(rows, heads)
  {
    if |rows| <= 1 then []
    else
      var n := |rows| - 1;
      Transitions(lang, rows[..n], heads) + RowEvents(lang, rows[n - 1].count, rows[n], heads)
  }

  lemma TransitionsStep(lang: Dialect, rows: seq<RawRow>, heads: nat, i: nat)
    requires Shaped(rows, heads) && 1 <= i < |rows|
    ensures Transitions(lang, rows[..i + 1], heads)
         == Transitions(lang, rows[..i], heads) + RowEvents(lang, rows[i - 1].count, rows[i], heads)
  {
    assert rows[..i + 1][..i] == rows[..i];
  }

  /******* The stateful extractor *******/

  // What a row emits given the last observation of each head.
  function ObservedEvents(lang: Dialect, last: seq<Option<int>>, row: RawRow, k: nat): seq<Event>
    requires k <= |last| && k <= |row.count| && k <= |row.torque| && k <= |row.status|
  {
    if k == 0 then []
    else
      ObservedEvents(lang, last, row, k - 1)
      + (if last[k - 1].None? || row.count[k - 1] == last[k - 1].value then []
         else [MakeEvent(lang, row, k - 1, last[k - 1].value)])
  }

  function Observed(counts: seq<int>): seq<Option<int>> {
    seq(|counts|, i requires 0 <= i < |counts| => Some(counts[i]))
  }

  lemma ObservedIsPrevious(lang: Dialect, prev: seq<int>, row: RawRow, k: nat)
    requires k <= |prev| && k <= |row.count| && k <= |row.torque| && k <= |row.status|
    ensures ObservedEvents(lang, Observed(prev), row, k) == RowEvents(lang, prev, row, k)
  {
  }

  lemma NothingObserved(lang: Dialect, last: seq<Option<int>>, row: RawRow, k: nat)
    requires k <= |last| && k <= |row.count| && k <= |row.torque| && k <= |row.status|
    requires forall h :: 0 <= h < |last| ==> last[h] == None
    ensures ObservedEvents(lang, last, row, k) == []
  {
  }

  class CapEventExtractor {
    const heads: nat
    var last: seq<Option<int>>

    constructor (heads: nat)
      ensures this.heads == heads && last == seq(heads, _ => None)
    {
      this.heads := heads;
      this.last := seq(heads, _ => None);
    }

    method Process(row: RawRow, out: seq<Event>) returns (more: seq<Event>)
      requires |last| == heads && RowShaped(row, heads)
      modifies this`last
      ensures last == Observed(row.count)
      ensures more == out + ObservedEvents(Cpp, old(last), row, heads)
    {
      more := out;
      for h := 0 to heads
        invariant |last| == heads
        invariant forall g :: 0 <= g < h ==> last[g] == Some(row.count[g])
        invariant forall g :: h <= g < heads ==> last[g] == old(last)[g]
        invariant more == out + ObservedEvents(Cpp, old(last), row, h)
      {
        var c := row.count[h];
        if last[h].None? {
          last := last[h := Some(c)];
        } else if c > last[h].value {
          more := more + [Event(h + 1, row.ts, c, row.torque[h], row.status[h], SaturatedDelta(c, last[h].value),
                                IsRejectCpp(row.status[h]), SaturatedDelta(c, last[h].value) > 1, false)];
          last := last[h := Some(c)];
        } else if c < last[h].value {
          more := more + [Event(h + 1, row.ts, c, row.torque[h], row.status[h], 0, IsRejectCpp(row.status[h]), false,
                                true)];
          last := last[h := Some(c)];
        }
      }
    }
  }

  // A row's events given what was observed just before it.
  lemma RowFollows(lang: Dialect, rows: seq<RawRow>, heads: nat, i: nat, last: seq<Option<int>>)
    requires Shaped(rows, heads) && i < |rows|
    requires last == if i == 0 then seq(heads, _ => None) else Observed(rows[i - 1].count)
    ensures |last| == heads
    ensures Transitions(lang, rows[..i + 1], heads) == Transitions(lang, rows[..i], heads)
            + ObservedEvents(lang, last, rows[i], heads)
  {
    if i == 0 {
      NothingObserved(lang, last, rows[0], heads);
    } else {
      ObservedIsPrevious(lang, rows[i - 1].count, rows[i], heads);
      TransitionsStep(lang, rows, heads, i);
    }
  }

  // Fed a day-file row by row, the stateful extractor emits the stream.
  method ExtractStateful(rows: seq<RawRow>, heads: nat) returns (out: seq<Event>)
    requires Shaped(rows, heads)
    ensures out == Transitions(Cpp, rows, heads)
  {
    var ex := new CapEventExtractor(heads);
    out := [];
    for i := 0 to |rows|
      invariant ex.heads == heads && fresh(ex)
      invariant ex.last == if i == 0 then seq(heads, _ => None) else Observed(rows[i - 1].count)
      invariant out == Transitions(Cpp, rows[..i], heads)
    {
      RowFollows(Cpp, rows, heads, i, ex.last);
      out := ex.Process(rows[i], out);
    }
    assert rows[..|rows|] == rows;
  }

  /******* The element-wise extractor over row-major columns *******/

  // Three flat arrays hold the rows' cells, row after row.
  ghost predicate Columns(rows: seq<RawRow>, heads: nat, count: seq<int>, torque: seq<real>, status: seq<real>) {
    && |count| == |torque| == |status| == |rows| * heads
    && forall i: nat, h: nat :: i < |rows| && h < heads ==> Cell(rows, heads, count, torque, status, i, h)
  }

  ghost predicate Cell(rows: seq<RawRow>, heads: nat, count: seq<int>, torque: seq<real>, status: seq<real>, i: nat,
                       h: nat)
    requires i < |rows| && h < heads && |count| == |torque| == |status| == |rows| * heads
  {
    && |rows[i].count| == |rows[i].torque| == |rows[i].status| == heads
    && i * heads + h < |rows| * heads
    && count[i * heads + h] == rows[i].count[h]
    && torque[i * heads + h] == rows[i].torque[h]
    && status[i * heads + h] == rows[i].status[h]
  }

  method FlatRow(ghost rows: seq<RawRow>, heads: nat, ts: string, count: seq<int>, torque: seq<real>,
                 status: seq<real>, i: nat, out: seq<Event>)
    returns (more: seq<Event>)
    requires Shaped(rows, heads) && Columns(rows, heads, count, torque, status)
    requires 1 <= i < |rows| && ts == rows[i].ts
    ensures more == out + RowEvents(Cpp, rows[i - 1].count, rows[i], heads)
  {
    var cur, prv := i * heads, (i - 1) * heads;
    more := out;
    for h := 0 to heads
      invariant more == out + RowEvents(Cpp, rows[i - 1].count, rows[i], h)
    {
      assert Cell(rows, heads, count, torque, status, i, h) && Cell(rows, heads, count, torque, status, i - 1, h);
      var cCur, cPrv := count[cur + h], count[prv + h];
      if cCur != cPrv {
        var delta := SaturatedDelta(cCur, cPrv);
        more := more + [Event(h + 1, ts, cCur, torque[cur + h], status[cur + h], delta,
                              IsRejectCpp(status[cur + h]), delta > 1, cCur < cPrv)];
      }
    }
  }

  method ExtractFlat(ghost rows: seq<RawRow>, heads: nat, ts: seq<string>, count: seq<int>, torque: seq<real>,
                     status: seq<real>)
    returns (out: seq<Event>)
    requires Shaped(rows, heads) && Columns(rows, heads, count, torque, status)
    requires |ts| == |rows| && forall i :: 0 <= i < |ts| ==> ts[i] == rows[i].ts
    ensures out == Transitions(Cpp, rows, heads)
  {
    out := [];
    var i := 1;
    while i < |ts|
      invariant 1 <= i && (i <= |ts| || |ts| == 0)
      invariant out == Transitions(Cpp, rows[..if i <= |rows| then i else |rows|], heads)
    {
      out := FlatRow(rows, heads, ts[i], count, torque, status, i, out);
      TransitionsStep(Cpp, rows, heads, i);
      i := i + 1;
    }
    assert rows[..|rows|] == rows;
  }

  /******* The Python reference loop *******/

  method ReferenceRow(row: RawRow, heads: nat, last0: seq<Option<int>>, events0: seq<Event>)
    returns (last: seq<Option<int>>, events: seq<Event>)
    requires |last0| == heads && RowShaped(row, heads)
    ensures last == Observed(row.count)
    ensures events == events0 + ObservedEvents(Python, last0, row, heads)
  {
    last, events := last0, events0;
    for h := 0 to heads
      invariant |last| == heads
      invariant forall g :: 0 <= g < h ==> last[g] == Some(row.count[g])
      invariant forall g :: h <= g < heads ==> last[g] == last0[g]
      invariant events == events0 + ObservedEvents(Python, last0, row, h)
    {
      var c := row.count[h];
      if last[h].None? {
        last := last[h := Some(c)];
      } else if c > last[h].value {
        var delta := c - last[h].value;
        events := events + [Event(h + 1, row.ts, c, row.torque[h], row.status[h], delta, IsRejectPython(row.status[h]),
                                  delta > 1, false)];
        last := last[h := Some(c)];
      } else if c < last[h].value {
        events := events + [Event(h + 1, row.ts, c, row.torque[h], row.status[h], 0, IsRejectPython(row.status[h]),
                                  false, true)];
        last := last[h := Some(c)];
      }
    }
  }

  method ExtractReference(rows: seq<RawRow>, heads: nat) returns (events: seq<Event>)
    requires Shaped(rows, heads)
    ensures events == Transitions(Python, rows, heads)
  {
    var last: seq<Option<int>> := seq(heads, _ => None);
    events := [];
    for i := 0 to |rows|
      invariant last == if i == 0 then seq(heads, _ => None) else Observed(rows[i - 1].count)
      invariant events == Transitions(Python, rows[..i], heads)
    {
      RowFollows(Python, rows, heads, i, last);
      last, events := ReferenceRow(rows[i], heads, last, events);
    }
    assert rows[..|rows|] == rows;
  }

  /******* The vectorised form *******/

  datatype Index = Index(row: nat, head: nat)

  // count[1:] - count[:-1]
  function DiffAt(rows: seq<RawRow>, heads: nat, i: nat, h: nat): int
    requires Shaped(rows, heads) && i + 1 < |rows| && h < heads
  {
    rows[i + 1].count[h] - rows[i].count[h]
  }

  // numpy.nonzero: the non-zero cells in row-major order.
  function NonzeroInRow(rows: seq<RawRow>, heads: nat, i: nat, k: nat): seq<Index>
    requires Shaped(rows, heads) && i + 1 < |rows| && k <= heads
  {
    if k == 0 then []
    else NonzeroInRow(rows, heads, i, k - 1) + (if DiffAt(rows, heads, i, k - 1) == 0 then [] else [Index(i, k - 1)])
  }

  function Nonzero(rows: seq<RawRow>, heads: nat, n: nat): seq<Index>
    requires Shaped(rows, heads) && (n == 0 || n < |rows|)
  {
    if n == 0 then [] else Nonzero(rows, heads, n - 1) + NonzeroInRow(rows, heads, n - 1, heads)
  }

  predicate InRange(rows: seq<RawRow>, heads: nat, xs: seq<Index>) {
    forall k :: 0 <= k < |xs| ==> xs[k].row + 1 < |rows| && xs[k].head < heads
  }

  // One tuple of the final comprehension.
  function Gather(rows: seq<RawRow>, heads: nat, x: Index): Event
    requires Shaped(rows, heads) && x.row + 1 < |rows| && x.head < heads
  {
    var d := DiffAt(rows, heads, x.row, x.head);
    var isReset := d < 0;
    var outDelta := if isReset then 0 else d;
    var row := rows[x.row + 1];
    Event(x.head + 1, row.ts, row.count[x.head], row.torque[x.head], row.status[x.head], outDelta,
          IsRejectPython(row.status[x.head]), outDelta > 1, isReset)
  }

  function GatherAll(rows: seq<RawRow>, heads: nat, xs: seq<Index>): seq<Event>
    requires Shaped(rows, heads) && InRange(rows, heads, xs)
  {
    seq(|xs|, k requires 0 <= k < |xs| => Gather(rows, heads, xs[k]))
  }

  lemma {:induction false} NonzeroInRange(rows: seq<RawRow>, heads: nat, n: nat)
    requires Shaped(rows, heads) && (n == 0 || n < |rows|)
    ensures InRange(rows, heads, Nonzero(rows, heads, n))
  {
    if n > 0 {
      NonzeroInRange(rows, heads, n - 1);
      RowInRange(rows, heads, n - 1, heads);
    }
  }

  lemma {:induction false} RowInRange(rows: seq<RawRow>, heads: nat, i: nat, k: nat)
    requires Shaped(rows, heads) && i + 1 < |rows| && k <= heads
    ensures InRange(rows, heads, NonzeroInRow(rows, heads, i, k))
  {
    if k > 0 {
      RowInRange(rows, heads, i, k - 1);
    }
  }

  function ExtractVectorized(rows: seq<RawRow>, heads: nat): seq<Event>
    requires Shaped(rows, heads)
  {
    if |rows| < 2 then []
    else
      NonzeroInRange(rows, heads, |rows| - 1);
      GatherAll(rows, heads, Nonzero(rows, heads, |rows| - 1))
  }

  lemma GatherAppend(rows: seq<RawRow>, heads: nat, xs: seq<Index>, ys: seq<Index>)
    requires Shaped(rows, heads) && InRange(rows, heads, xs) && InRange(rows, heads, ys)
    ensures InRange(rows, heads, xs + ys)
    ensures GatherAll(rows, heads, xs + ys) == GatherAll(rows, heads, xs) + GatherAll(rows, heads, ys)
  {
    hide Gather;
  }

  lemma {:induction false} GatherRow(rows: seq<RawRow>, heads: nat, i: nat, k: nat)
    requires Shaped(rows, heads) && i + 1 < |rows| && k <= heads
    ensures InRange(rows, heads, NonzeroInRow(rows, heads, i, k))
    ensures GatherAll(rows, heads, NonzeroInRow(rows, heads, i, k)) == RowEvents(Python, rows[i].count, rows[i + 1], k)
  {
    if k > 0 {
      GatherRow(rows, heads, i, k - 1);
      if DiffAt(rows, heads, i, k - 1) != 0 {
        var x := Index(i, k - 1);
        GatherAppend(rows, heads, NonzeroInRow(rows, heads, i, k - 1), [x]);
        assert Gather(rows, heads, x) == MakeEvent(Python, rows[i + 1], k - 1, rows[i].count[k - 1]);
        hide GatherAll, Gather, MakeEvent;
        GatherOne(rows, heads, x);
      } else {
        assert NonzeroInRow(rows, heads, i, k - 1) + [] == NonzeroInRow(rows, heads, i, k - 1);
      }
    }
  }

  lemma GatherOne(rows: seq<RawRow>, heads: nat, x: Index)
    requires Shaped(rows, heads) && x.row + 1 < |rows| && x.head < heads
    ensures InRange(rows, heads, [x]) && GatherAll(rows, heads, [x]) == [Gather(rows, heads, x)]
  {
  }

  lemma {:induction false} GatherRows(rows: seq<RawRow>, heads: nat, n: nat)
    requires Shaped(rows, heads) && n < |rows|
    ensures InRange(rows, heads, Nonzero(rows, heads, n))
    ensures GatherAll(rows, heads, Nonzero(rows, heads, n)) == Transitions(Python, rows[..n + 1], heads)
  {
    if n > 0 {
      GatherRows(rows, heads, n - 1);
      var xs, ys := Nonzero(rows, heads, n - 1), NonzeroInRow(rows, heads, n - 1, heads);
      GatherRow(rows, heads, n - 1, heads);
      TransitionsStep(Python, rows, heads, n);
      hide Transitions, RowEvents, NonzeroInRow, GatherAll;
      GatherAppend(rows, heads, xs, ys);
    } else {
      assert rows[..1][..0] == [];
    }
  }

  lemma VectorizedGathers(rows: seq<RawRow>, heads: nat)
    requires Shaped(rows, heads)
    ensures |rows| < 2 ==> ExtractVectorized(rows, heads) == [] && Transitions(Python, rows, heads) == []
    ensures |rows| >= 2 ==> InRange(rows, heads, Nonzero(rows, heads, |rows| - 1))
                            && ExtractVectorized(rows, heads)
                                == GatherAll(rows, heads, Nonzero(rows, heads, |rows| - 1))
  {
    hide Nonzero, InRange, GatherAll;
    if |rows| >= 2 {
      NonzeroInRange(rows, heads, |rows| - 1);
    }
  }

  // One difference over the whole array emits the same stream as the loops.
  lemma VectorizedIsStream(rows: seq<RawRow>, heads: nat)
    requires Shaped(rows, heads)
    ensures ExtractVectorized(rows, heads) == Transitions(Python, rows, heads)
  {
    hide *;
    VectorizedGathers(rows, heads);
    if |rows| >= 2 {
      var n := |rows| - 1;
      GatherRows(rows, heads, n);
      assert rows[..n + 1] == rows;
    }
  }

  /******* The dialects compared *******/

  // A Python event as the C++ programs would report it.
  function Narrowed(e: Event): Event {
    e.(delta := if e.delta > INT_MAX then INT_MAX else e.delta, isFault := IsRejectCpp(e.status))
  }

  ghost predicate SameBut(cpp: seq<Event>, python: seq<Event>) {
    |cpp| == |python| && forall k :: 0 <= k < |cpp| ==> cpp[k] == Narrowed(python[k])
  }

  lemma {:induction false} RowDialects(prev: seq<int>, row: RawRow, k: nat)
    requires k <= |prev| && k <= |row.count| && k <= |row.torque| && k <= |row.status|
    ensures SameBut(RowEvents(Cpp, prev, row, k), RowEvents(Python, prev, row, k))
  {
    if k > 0 {
      RowDialects(prev, row, k - 1);
    }
  }

  // The C++ stream is the Python stream event for event; only a jump above
  // INT_MAX (in `delta`) and the fault bit of a status outside the exact range
  // can differ.
  lemma {:induction false} DialectsAgree(rows: seq<RawRow>, heads: nat)
    requires Shaped(rows, heads)
    ensures SameBut(Transitions(Cpp, rows, heads), Transitions(Python, rows, heads))
  {
    if |rows| > 1 {
      var n := |rows| - 1;
      DialectsAgree(rows[..n], heads);
      RowDialects(rows[n - 1].count, rows[n], heads);
    }
  }

  // An event is reported alike by both exactly when its jump fits and its
  // status is one both readings classify the same way.
  lemma EventAgrees(e: Event)
    ensures Narrowed(e.(isFault := IsRejectPython(e.status))) == e.(isFault := IsRejectPython(e.status))
       <==> e.delta <= INT_MAX && (-MAX_EXACT <= e.status <= MAX_EXACT || Trunc(e.status) % 2 != 0)
  {
    RejectsAgreeOnReals(e.status);
  }
}
