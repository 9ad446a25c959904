// The wire format: a tag line and newline-separated fields.
module Codec {
  import opened Protocol
  import opened Decimal
  import opened CoordinatorSpec
  import opened CoordinatorLaws
  import opened CoordinatorPasses
  import opened CoordinatorRuns

  /******* Lines *******/

  // Index of the first newline at or after start, or the end.
  function NewlineFrom(s: string, start: nat): (k: nat)
    requires start <= |s|
    ensures start <= k <= |s| && (k < |s| ==> s[k] == '\n') && forall i :: start <= i < k ==> s[i] != '\n'
    decreases |s| - start
  {
    if start == |s| || s[start] == '\n' then start else NewlineFrom(s, start + 1)
  }

  function LinesFrom(s: string, start: nat): seq<string>
    requires start <= |s|
    decreases |s| - start
  {
    var k := NewlineFrom(s, start);
    [s[start..k]] + (if k == |s| then [] else LinesFrom(s, k + 1))
  }

  function Lines(s: string): seq<string> {
    LinesFrom(s, 0)
  }

  lemma LinesStep(s: string, start: nat)
    requires start <= |s|
    ensures var k := NewlineFrom(s, start);
            LinesFrom(s, start) == if k == |s| then [s[start..]] else [s[start..k]] + LinesFrom(s, k + 1)
  {
    assert s[start..|s|] == s[start..];
  }

  method SplitLines(s: string) returns (out: seq<string>)
    ensures out == Lines(s)
  {
    out := [];
    var start := 0;
    hide LinesFrom;
    while true
      invariant start <= |s| && out + LinesFrom(s, start) == Lines(s)
      decreases |s| - start
    {
      LinesStep(s, start);
      var nl := NewlineFrom(s, start);
      if nl == |s| {
        out := out + [s[start..]];
        return;
      }
      out := out + [s[start..nl]];
      start := nl + 1;
    }
  }

  function Join(fields: seq<string>): string
    requires fields != []
  {
    if |fields| == 1 then fields[0] else fields[0] + "\n" + Join(fields[1..])
  }

  predicate Line(s: string) {
    forall i :: 0 <= i < |s| ==> s[i] != '\n'
  }

  lemma JoinMore(f: string, rest: seq<string>)
    requires rest != []
    ensures Join([f] + rest) == f + "\n" + Join(rest)
  {
    assert ([f] + rest)[1..] == rest;
  }

  // A line in front of a newline or of the end is what LinesFrom cuts off.
  lemma FirstLine(s: string, start: nat, f: string, tail: string)
    requires start <= |s| && s[start..] == f + tail && Line(f) && (tail == "" || tail[0] == '\n')
    ensures NewlineFrom(s, start) == start + |f| && s[start..start + |f|] == f
    ensures tail != "" ==> start + |f| < |s| && s[start + |f| + 1..] == tail[1..]
    ensures tail == "" ==> start + |f| == |s|
  {
    var k := NewlineFrom(s, start);
    assert |s| - start == |f| + |tail|;
    forall i | start <= i < |s| ensures s[i] == (f + tail)[i - start] { assert s[start..][i - start] == s[i]; }
    assert tail != "" ==> s[start + |f|] == '\n';
  }

  // Lines is the inverse of Join on newline-free fields...
  lemma {:induction false} LinesOfJoin(fields: seq<string>, s: string, start: nat)
    requires fields != [] && (forall i :: 0 <= i < |fields| ==> Line(fields[i]))
    requires start <= |s| && s[start..] == Join(fields)
    ensures LinesFrom(s, start) == fields
    decreases |fields|
  {
    hide Line;
    var f := fields[0];
    if |fields| == 1 {
      assert s[start..] == f + "";
      FirstLine(s, start, f, "");
    } else {
      var tail := "\n" + Join(fields[1..]);
      assert s[start..] == f + tail;
      FirstLine(s, start, f, tail);
      assert tail[1..] == Join(fields[1..]);
      LinesOfJoin(fields[1..], s, start + |f| + 1);
    }
  }

  // ...and Join the inverse of Lines on everything: no byte of a payload is lost.
  lemma CutAt(s: string, start: nat, k: nat)
    requires start <= k < |s| && s[k] == '\n'
    ensures s[start..] == s[start..k] + "\n" + s[k + 1..]
  {
  }

  ghost predicate Fields(fields: seq<string>, s: string) {
    fields != [] && (forall i :: 0 <= i < |fields| ==> Line(fields[i])) && Join(fields) == s
  }

  lemma FieldsMore(f: string, rest: seq<string>, s: string)
    requires Line(f) && Fields(rest, s)
    ensures Fields([f] + rest, f + "\n" + s)
  {
    JoinMore(f, rest);
    hide Join, Line;
  }

  lemma FirstIsLine(s: string, start: nat)
    requires start <= |s|
    ensures Line(s[start..NewlineFrom(s, start)])
  {
  }

  lemma LastLine(s: string, start: nat)
    requires start <= |s| && Line(s[start..])
    ensures Fields([s[start..]], s[start..])
  {
  }

  lemma {:induction false} JoinOfLines(s: string, start: nat)
    requires start <= |s|
    ensures Fields(LinesFrom(s, start), s[start..])
    decreases |s| - start
  {
    hide *;
    LinesStep(s, start);
    FirstIsLine(s, start);
    var k := NewlineFrom(s, start);
    if k < |s| {
      JoinOfLines(s, k + 1);
      CutAt(s, start, k);
      FieldsMore(s[start..k], LinesFrom(s, k + 1), s[k + 1..]);
    } else {
      assert s[start..k] == s[start..];
      LastLine(s, start);
    }
  }

  /******* Numbers *******/

  const LLONG_MAX: int := 0x7fff_ffff_ffff_ffff

  function ToString(n: int): string {
    if n < 0 then "-" + Digits(-n) else Digits(n)
  }

  predicate Space(c: char) {
    c == ' ' || '\t' <= c <= '\r'
  }

  function SkipSpace(s: string): string {
    if s != "" && Space(s[0]) then SkipSpace(s[1..]) else s
  }

  // std::stoll with its end-of-parse check: leading blanks, one sign, digits to
  // the end, and a value of 64 bits.
  function Stoll(s: string): Option<int> {
    var t := SkipSpace(s);
    var negative := t != "" && t[0] == '-';
    var u := if negative || (t != "" && t[0] == '+') then t[1..] else t;
    if u == "" || !AllDigits(u) then None
    else
      var n := (if negative then -1 else 1) * Number(u);
      if -LLONG_MAX - 1 <= n <= LLONG_MAX then Some(n) else None
  }

  lemma StollReads(n: int)
    requires -LLONG_MAX - 1 <= n <= LLONG_MAX
    ensures Stoll(ToString(n)) == Some(n) && Line(ToString(n)) && ToString(n) != ""
  {
    NumberOfDigits(if n < 0 then -n else n);
    var d := Digits(if n < 0 then -n else n);
    assert IsDigit(d[0]);
    assert n < 0 ==> ("-" + d)[1..] == d;
    assert forall i :: 0 <= i < |d| ==> IsDigit(d[i]);
  }

  // Seconds travel with six decimals; `micros` is what was printed.
  function Fixed(micros: nat): string {
    Digits(micros / 1_000_000) + "." + Pad(micros % 1_000_000, 6)
  }

  function ReadFixed(s: string): Option<nat> {
    var n := |s|;
    if n >= 8 && s[n - 7] == '.' && AllDigits(s[..n - 7]) && AllDigits(s[n - 6..])
    then Some(Number(s[..n - 7]) * 1_000_000 + Number(s[n - 6..])) else None
  }

  // std::stod with its end-of-parse check. Six-decimal texts are read here;
  // `other` says what it makes of every other text (exponents, "inf", garbage).
  function Stod(other: string -> Option<real>, s: string): Option<real> {
    var fixed := ReadFixed(s);
    if fixed.Some? then Some(fixed.value as real / 1_000_000.0) else other(s)
  }

  lemma FixedParts(a: string, b: string)
    requires AllDigits(a) && AllDigits(b) && |a| >= 1 && |b| == 6
    ensures var s := a + "." + b; var n := |s|;
            n >= 8 && s[n - 7] == '.' && s[..n - 7] == a && s[n - 6..] == b && Line(s)
  {
    var s := a + "." + b;
    forall i | 0 <= i < |s| ensures s[i] != '\n' {
      assert i < |a| ==> IsDigit(a[i]);
      assert i > |a| ==> IsDigit(b[i - |a| - 1]);
    }
  }

  lemma Million()
    ensures PowerOfTen(6) == 1_000_000
  {
    assert PowerOfTen(6) == 10 * PowerOfTen(5) == 100 * PowerOfTen(4) == 1000 * PowerOfTen(3);
  }

  lemma FixedReads(micros: nat)
    ensures ReadFixed(Fixed(micros)) == Some(micros) && Line(Fixed(micros))
  {
    hide Digits, Pad, Number, PowerOfTen, AllDigits, Line;
    Million();
    FixedParts(Digits(micros / 1_000_000), Pad(micros % 1_000_000, 6));
    NumberOfDigits(micros / 1_000_000);
    NumberOfPad(micros % 1_000_000, 6);
  }

  /******* Messages *******/

  datatype WorkItem = WorkItem(path: string)
  datatype WorkResult = WorkResult(path: string, events: int, seconds: real, worker: string)
  datatype Heartbeat = Heartbeat(worker: string, seq_: int)
  datatype WorkClaim = WorkClaim(path: string, worker: string)
  datatype Goodbye = Goodbye(worker: string)

  const STOP := "STOP"

  function EncodeWork(w: WorkItem): string {
    "WORK" + "\n" + w.path
  }

  // A result whose duration prints as `micros`.
  function EncodeResult(path: string, events: int, micros: nat, worker: string): string {
    "RESULT" + "\n" + path + "\n" + ToString(events) + "\n" + Fixed(micros) + "\n" + worker
  }

  function EncodeHeartbeat(h: Heartbeat): string {
    "HB" + "\n" + h.worker + "\n" + ToString(h.seq_)
  }

  function EncodeClaim(c: WorkClaim): string {
    "CLAIM" + "\n" + c.path + "\n" + c.worker
  }

  function EncodeGoodbye(g: Goodbye): string {
    "BYE" + "\n" + g.worker
  }

  predicate IsStop(payload: string) {
    payload == STOP
  }

  function DecodeWork(payload: string): Option<WorkItem> {
    var f := Lines(payload);
    if |f| != 2 || f[0] != "WORK" || f[1] == "" then None else Some(WorkItem(f[1]))
  }

  function DecodeResult(other: string -> Option<real>, payload: string): Option<WorkResult> {
    var f := Lines(payload);
    if |f| != 5 || f[0] != "RESULT" || f[4] == "" then None
    else
      var events, seconds := Stoll(f[2]), Stod(other, f[3]);
      if events.None? || seconds.None? then None
      else if events.value < PARTIAL || events.value > MAX_EVENTS then None
      else if !(0.0 <= seconds.value < 1_000_000_000.0) then None
      else Some(WorkResult(f[1], events.value, seconds.value, f[4]))
  }

  function DecodeHeartbeat(payload: string): Option<Heartbeat> {
    var f := Lines(payload);
    if |f| != 3 || f[0] != "HB" || f[1] == "" then None
    else
      var n := Stoll(f[2]);
      if n.None? || n.value < 0 then None else Some(Heartbeat(f[1], n.value))
  }

  function DecodeClaim(payload: string): Option<WorkClaim> {
    var f := Lines(payload);
    if |f| != 3 || f[0] != "CLAIM" || f[1] == "" || f[2] == "" then None else Some(WorkClaim(f[1], f[2]))
  }

  function DecodeGoodbye(payload: string): Option<Goodbye> {
    var f := Lines(payload);
    if |f| != 2 || f[0] != "BYE" || f[1] == "" then None else Some(Goodbye(f[1]))
  }

  lemma LinesAre(payload: string, fields: seq<string>)
    requires fields != [] && (forall i :: 0 <= i < |fields| ==> Line(fields[i])) && payload == Join(fields)
    ensures Lines(payload) == fields
  {
    assert payload[0..] == payload;
    LinesOfJoin(fields, payload, 0);
  }

  /******* Round trips *******/

  // Paths and worker ids hold no newline; the decoders demand some fields non-empty.
  lemma WorkRoundTrip(w: WorkItem)
    requires Line(w.path)
    ensures DecodeWork(EncodeWork(w)) == if w.path == "" then None else Some(w)
  {
    LinesAre(EncodeWork(w), ["WORK", w.path]);
  }

  lemma SecondsRange(micros: nat)
    ensures 0.0 <= micros as real / 1_000_000.0
    ensures micros as real / 1_000_000.0 < 1_000_000_000.0 <==> micros < 1_000_000_000_000_000
  {
  }

  lemma DecodeFields(other: string -> Option<real>, payload: string, f: seq<string>, events: int, micros: nat)
    requires |f| == 5 && Lines(payload) == f && f[0] == "RESULT"
    requires Stoll(f[2]) == Some(events) && ReadFixed(f[3]) == Some(micros)
    ensures DecodeResult(other, payload)
         == if f[4] != "" && -2 <= events <= 1_000_000_000_000 && micros < 1_000_000_000_000_000
            then Some(WorkResult(f[1], events, micros as real / 1_000_000.0, f[4])) else None
  {
    hide Lines, Stoll, ReadFixed;
    SecondsRange(micros);
  }

  lemma ResultRoundTrip(other: string -> Option<real>, path: string, events: int, micros: nat, worker: string)
    requires Line(path) && Line(worker) && -LLONG_MAX - 1 <= events <= LLONG_MAX
    ensures DecodeResult(other, EncodeResult(path, events, micros, worker))
         == if worker != "" && -2 <= events <= 1_000_000_000_000 && micros < 1_000_000_000_000_000
            then Some(WorkResult(path, events, micros as real / 1_000_000.0, worker)) else None
  {
    var f := ["RESULT", path, ToString(events), Fixed(micros), worker];
    assert Line("RESULT");
    hide Fixed, ToString, Stoll, ReadFixed, Line, Join, Lines, DecodeResult;
    StollReads(events);
    FixedReads(micros);
    ResultLines(path, ToString(events), Fixed(micros), worker);
    DecodeFields(other, EncodeResult(path, events, micros, worker), f, events, micros);
  }

  lemma ResultLines(path: string, events: string, seconds: string, worker: string)
    requires Line("RESULT") && Line(path) && Line(events) && Line(seconds) && Line(worker)
    ensures Lines("RESULT" + "\n" + path + "\n" + events + "\n" + seconds + "\n" + worker)
            == ["RESULT", path, events, seconds, worker]
  {
    hide Line, Lines;
    ThreeAre(events, seconds, worker);
    JoinMore(path, [events, seconds, worker]);
    JoinMore("RESULT", [path, events, seconds, worker]);
    var f := ["RESULT", path, events, seconds, worker];
    assert ["RESULT"] + [path, events, seconds, worker] == f
           && [path] + [events, seconds, worker] == [path, events, seconds, worker];
    hide Join;
    LinesAre("RESULT" + "\n" + path + "\n" + events + "\n" + seconds + "\n" + worker, f);
  }

  lemma ThreeAre(a: string, b: string, c: string)
    ensures Join([a, b, c]) == a + "\n" + b + "\n" + c
  {
    JoinMore(b, [c]);
    JoinMore(a, [b, c]);
    assert [b] + [c] == [b, c] && [a] + [b, c] == [a, b, c];
  }

  lemma HeartbeatRoundTrip(h: Heartbeat)
    requires Line(h.worker) && -LLONG_MAX - 1 <= h.seq_ <= LLONG_MAX
    ensures DecodeHeartbeat(EncodeHeartbeat(h)) == if h.worker != "" && h.seq_ >= 0 then Some(h) else None
  {
    StollReads(h.seq_);
    hide ToString, Stoll, Join;
    ThreeAre("HB", h.worker, ToString(h.seq_));
    LinesAre(EncodeHeartbeat(h), ["HB", h.worker, ToString(h.seq_)]);
  }

  lemma ClaimRoundTrip(c: WorkClaim)
    requires Line(c.path) && Line(c.worker)
    ensures DecodeClaim(EncodeClaim(c)) == if c.path != "" && c.worker != "" then Some(c) else None
  {
    hide Join;
    ThreeAre("CLAIM", c.path, c.worker);
    LinesAre(EncodeClaim(c), ["CLAIM", c.path, c.worker]);
  }

  lemma GoodbyeRoundTrip(g: Goodbye)
    requires Line(g.worker)
    ensures DecodeGoodbye(EncodeGoodbye(g)) == if g.worker != "" then Some(g) else None
  {
    LinesAre(EncodeGoodbye(g), ["BYE", g.worker]);
  }

  /******* What is accepted *******/

  // The lines of a payload say everything about it.
  lemma LinesIff(payload: string, fields: seq<string>)
    requires fields != []
    ensures Lines(payload) == fields <==> (forall i :: 0 <= i < |fields| ==> Line(fields[i])) && payload == Join(fields)
  {
    hide Join, Line;
    JoinOfLines(payload, 0);
    assert payload[0..] == payload;
    if (forall i :: 0 <= i < |fields| ==> Line(fields[i])) && payload == Join(fields) {
      LinesAre(payload, fields);
    }
  }

  lemma TwoIff(payload: string, a: string, b: string)
    ensures Lines(payload) == [a, b] <==> Line(a) && Line(b) && payload == a + "\n" + b
  {
    LinesIff(payload, [a, b]);
    JoinMore(a, [b]);
    assert [a] + [b] == [a, b] && Join([b]) == b;
    assert (forall i :: 0 <= i < 2 ==> Line([a, b][i])) <==> Line([a, b][0]) && Line([a, b][1]);
    hide Lines, Join, Line;
  }

  lemma ThreeIff(payload: string, a: string, b: string, c: string)
    ensures Lines(payload) == [a, b, c] <==> Line(a) && Line(b) && Line(c) && payload == a + "\n" + b + "\n" + c
  {
    var f := [a, b, c];
    LinesIff(payload, f);
    ThreeAre(a, b, c);
    assert (forall i :: 0 <= i < 3 ==> Line(f[i])) <==> Line(f[0]) && Line(f[1]) && Line(f[2]);
    hide Lines, Join, Line;
  }

  lemma FiveIff(payload: string, a: string, b: string, c: string, d: string, e: string)
    ensures Lines(payload) == [a, b, c, d, e]
            <==> Line(a) && Line(b) && Line(c) && Line(d) && Line(e)
                 && payload == a + "\n" + b + "\n" + c + "\n" + d + "\n" + e
  {
    var f := [a, b, c, d, e];
    LinesIff(payload, f);
    ThreeAre(c, d, e);
    JoinMore(b, [c, d, e]);
    JoinMore(a, [b, c, d, e]);
    assert [b] + [c, d, e] == [b, c, d, e] && [a] + [b, c, d, e] == f;
    assert (forall i :: 0 <= i < 5 ==> Line(f[i]))
        <==> Line(f[0]) && Line(f[1]) && Line(f[2]) && Line(f[3]) && Line(f[4]);
    hide Lines, Join, Line;
  }

  // Work, claims and goodbyes: accepted is exactly what is sent for one.
  lemma WorkDecodes(payload: string, w: WorkItem)
    ensures DecodeWork(payload) == Some(w) <==> Line(w.path) && w.path != "" && payload == "WORK" + "\n" + w.path
  {
    TwoIff(payload, "WORK", w.path);
    assert Line("WORK");
    hide Lines, Line;
    assert DecodeWork(payload) == Some(w) ==> Lines(payload) == ["WORK", w.path];
  }

  lemma ClaimDecodes(payload: string, c: WorkClaim)
    ensures DecodeClaim(payload) == Some(c)
            <==> Line(c.path) && Line(c.worker) && c.path != "" && c.worker != ""
                 && payload == "CLAIM" + "\n" + c.path + "\n" + c.worker
  {
    ThreeIff(payload, "CLAIM", c.path, c.worker);
    assert Line("CLAIM");
    hide Lines, Line;
    assert DecodeClaim(payload) == Some(c) ==> Lines(payload) == ["CLAIM", c.path, c.worker];
  }

  lemma GoodbyeDecodes(payload: string, g: Goodbye)
    ensures DecodeGoodbye(payload) == Some(g)
            <==> Line(g.worker) && g.worker != "" && payload == "BYE" + "\n" + g.worker
  {
    TwoIff(payload, "BYE", g.worker);
    assert Line("BYE");
    hide Lines, Line;
    assert DecodeGoodbye(payload) == Some(g) ==> Lines(payload) == ["BYE", g.worker];
  }

  // A number reads as itself however it is written: blanks, a sign, leading zeros.
  ghost predicate Writes(s: string, n: int, blanks: string, sign: string, digits: string) {
    && s == blanks + sign + digits && (forall i :: 0 <= i < |blanks| ==> blanks[i] == ' ' || '\t' <= blanks[i] <= '\r')
    && (sign == "" || sign == "+" || sign == "-") && digits != "" && AllDigits(digits)
    && n == (if sign == "-" then -1 else 1) * Number(digits)
  }

  lemma {:induction false} SkipsBlanks(s: string) returns (blanks: string)
    ensures s == blanks + SkipSpace(s) && forall i :: 0 <= i < |blanks| ==> Space(blanks[i])
    ensures SkipSpace(s) == "" || !Space(SkipSpace(s)[0])
  {
    blanks := "";
    if s != "" && Space(s[0]) {
      var rest := SkipsBlanks(s[1..]);
      blanks := [s[0]] + rest;
    }
  }

  lemma {:induction false} SkipSpaceStops(blanks: string, t: string)
    requires (forall i :: 0 <= i < |blanks| ==> Space(blanks[i])) && (t == "" || !Space(t[0]))
    ensures SkipSpace(blanks + t) == t
  {
    if blanks == "" {
      assert blanks + t == t;
    } else {
      assert (blanks + t)[1..] == blanks[1..] + t;
      SkipSpaceStops(blanks[1..], t);
    }
  }

  // Exactly the written numbers of 64 bits are read.
  lemma StollIff(s: string, n: int)
    ensures Stoll(s) == Some(n)
            <==> -0x8000_0000_0000_0000 <= n <= 0x7fff_ffff_ffff_ffff
                 && exists blanks, sign, digits :: Writes(s, n, blanks, sign, digits)
  {
    hide Writes, Stoll;
    if Stoll(s) == Some(n) {
      var blanks, sign, digits := ReadIsWritten(s, n);
    }
    if -0x8000_0000_0000_0000 <= n <= 0x7fff_ffff_ffff_ffff {
      if blanks, sign, digits :| Writes(s, n, blanks, sign, digits) {
        WrittenReads(s, n, blanks, sign, digits);
      }
    }
  }

  lemma ReadIsWritten(s: string, n: int) returns (blanks: string, sign: string, digits: string)
    requires Stoll(s) == Some(n)
    ensures Writes(s, n, blanks, sign, digits) && -0x8000_0000_0000_0000 <= n <= 0x7fff_ffff_ffff_ffff
  {
    blanks := SkipsBlanks(s);
    hide SkipSpace, Number, AllDigits;
    var t := SkipSpace(s);
    sign, digits := SignOf(t);
    assert blanks + t == blanks + sign + digits;
    hide Space;
  }

  lemma SignOf(t: string) returns (sign: string, rest: string)
    ensures t == sign + rest && (sign == "" || sign == "+" || sign == "-")
    ensures sign == "-" <==> t != "" && t[0] == '-'
    ensures sign == "+" <==> t != "" && t[0] == '+'
    ensures rest == if sign == "" then t else t[1..]
  {
    sign := if t != "" && t[0] == '-' then "-" else if t != "" && t[0] == '+' then "+" else "";
    rest := t[|sign|..];
  }

  lemma WrittenReads(s: string, n: int, blanks: string, sign: string, digits: string)
    requires Writes(s, n, blanks, sign, digits) && -0x8000_0000_0000_0000 <= n <= 0x7fff_ffff_ffff_ffff
    ensures Stoll(s) == Some(n)
  {
    assert IsDigit(digits[0]);
    var t := sign + digits;
    assert !Space(t[0]) && s == blanks + t;
    SkipSpaceStops(blanks, t);
    hide SkipSpace, Number, AllDigits, Space;
    assert t[|sign|..] == digits;
  }

  lemma HeartbeatDecodes(payload: string, h: Heartbeat)
    ensures DecodeHeartbeat(payload) == Some(h)
            <==> exists text :: payload == "HB" + "\n" + h.worker + "\n" + text && Line(h.worker) && Line(text)
                                && h.worker != "" && h.seq_ >= 0 && Stoll(text) == Some(h.seq_)
  {
    hide Lines, Line, Stoll;
    assert Line("HB") by { ShortLine("HB"); }
    if DecodeHeartbeat(payload) == Some(h) {
      var text := Lines(payload)[2];
      assert Lines(payload) == ["HB", h.worker, text];
      ThreeIff(payload, "HB", h.worker, text);
    }
    if text :| payload == "HB" + "\n" + h.worker + "\n" + text && Line(h.worker) && Line(text)
               && h.worker != "" && h.seq_ >= 0 && Stoll(text) == Some(h.seq_)
    {
      ThreeIff(payload, "HB", h.worker, text);
    }
  }

  lemma ShortLine(s: string)
    requires '\n' !in s
    ensures Line(s)
  {
  }

  // The texts of a result's count and duration.
  ghost predicate Reported(other: string -> Option<real>, payload: string, r: WorkResult, count: string,
                           seconds: string) {
    && payload == "RESULT" + "\n" + r.path + "\n" + count + "\n" + seconds + "\n" + r.worker
    && Line(r.path) && Line(count) && Line(seconds) && Line(r.worker) && r.worker != ""
    && Stoll(count) == Some(r.events) && -2 <= r.events <= 1_000_000_000_000
    && Stod(other, seconds) == Some(r.seconds) && 0.0 <= r.seconds < 1_000_000_000.0
  }

  // Exactly these payloads are results.
  lemma ResultDecodes(other: string -> Option<real>, payload: string, r: WorkResult)
    ensures DecodeResult(other, payload) == Some(r)
            <==> exists count, seconds :: Reported(other, payload, r, count, seconds)
  {
    hide Lines, Line, Stoll, Stod;
    assert Line("RESULT") by { ShortLine("RESULT"); }
    if DecodeResult(other, payload) == Some(r) {
      var f := Lines(payload);
      assert f == ["RESULT", r.path, f[2], f[3], r.worker];
      FiveIff(payload, "RESULT", r.path, f[2], f[3], r.worker);
      assert Reported(other, payload, r, f[2], f[3]);
    }
    if count, seconds :| Reported(other, payload, r, count, seconds) {
      FiveIff(payload, "RESULT", r.path, count, seconds, r.worker);
    }
  }

  // What goes over the wire for one result.
  lemma ResultOnTheWire()
    ensures EncodeResult("day.csv", -2, 1_500_000, "w1") == "RESULT\nday.csv\n-2\n1.500000\nw1"
    ensures EncodeHeartbeat(Heartbeat("w1", 0)) == "HB\nw1\n0" && EncodeHeartbeat(Heartbeat("w1", 70)) == "HB\nw1\n70"
  {
    SmallTexts();
    HalfText();
    hide ToString, Digits, Pad;
    assert Fixed(1_500_000) == "1.500000";
  }

  lemma SmallTexts()
    ensures ToString(-2) == "-2" && ToString(0) == "0" && ToString(70) == "70" && Digits(1) == "1"
  {
    assert Digits(0) == "0";
    assert Digits(2) == "2";
    assert Digits(7) == "7" && Digits(70) == Digits(7) + "0";
  }

  lemma HalfText()
    ensures Pad(500_000, 6) == "500000"
  {
    assert Pad(0, 0) == "" && Pad(5, 1) == Pad(0, 0) + "5" == "5";
    PadZero(5, 1, "5");
    PadZero(50, 2, "50");
    PadZero(500, 3, "500");
    PadZero(5000, 4, "5000");
    PadZero(50000, 5, "50000");
  }

  lemma PadZero(n: nat, width: nat, text: string)
    requires Pad(n, width) == text
    ensures Pad(n * 10, width + 1) == text + "0"
  {
  }

  /******* Unambiguity *******/

  function Kinds(other: string -> Option<real>, payload: string): set<string> {
    (if DecodeWork(payload).Some? then {"work"} else {})
    + (if DecodeResult(other, payload).Some? then {"result"} else {})
    + (if DecodeHeartbeat(payload).Some? then {"heartbeat"} else {})
    + (if DecodeClaim(payload).Some? then {"claim"} else {})
    + (if DecodeGoodbye(payload).Some? then {"goodbye"} else {})
    + (if IsStop(payload) then {"stop"} else {})
  }

  // Every payload means at most one thing, whatever order the decoders are tried in.
  lemma AtMostOneKind(other: string -> Option<real>, payload: string)
    ensures |Kinds(other, payload)| <= 1
  {
    assert Lines(STOP) == [STOP] by { assert STOP[0..] == STOP; LinesAre(STOP, [STOP]); }
    var tag := Lines(payload)[0];
    hide Lines, Stoll, Stod;
    assert IsStop(payload) ==> tag == "STOP";
    assert Kinds(other, payload) <= (
      if tag == "WORK" then {"work"} else if tag == "RESULT" then {"result"} else if tag == "HB" then {"heartbeat"}
      else if tag == "CLAIM" then {"claim"} else if tag == "BYE" then {"goodbye"} else {"stop"});
    SmallSubset(Kinds(other, payload),
                if tag == "WORK" then "work" else if tag == "RESULT" then "result" else if tag == "HB" then "heartbeat"
                else if tag == "CLAIM" then "claim" else if tag == "BYE" then "goodbye" else "stop");
  }

  lemma SmallSubset(s: set<string>, x: string)
    requires s <= {x}
    ensures |s| <= 1
  {
    assert s == {} || s == {x};
  }

  /******* What the coordinator sees *******/

  // The lifecycle socket: results, claims and goodbyes; the rest is skipped.
  function FrameOf(other: string -> Option<real>, payload: string): Frame {
    var r := DecodeResult(other, payload);
    if r.Some? then Result(r.value.path, r.value.events, r.value.worker)
    else
      var c := DecodeClaim(payload);
      if c.Some? then Claim(c.value.path, c.value.worker)
      else
        var g := DecodeGoodbye(payload);
        if g.Some? then Bye(g.value.worker) else Malformed
  }

  // The frames a worker sends are the frames the coordinator acts on.
  lemma FramesArrive(other: string -> Option<real>, path: string, worker: string, events: int, micros: nat)
    requires Line(path) && Line(worker) && path != "" && worker != ""
    requires -2 <= events <= 1_000_000_000_000 && micros < 1_000_000_000_000_000
    ensures FrameOf(other, EncodeResult(path, events, micros, worker)) == Result(path, events, worker)
    ensures FrameOf(other, EncodeClaim(WorkClaim(path, worker))) == Claim(path, worker)
    ensures FrameOf(other, EncodeGoodbye(Goodbye(worker))) == Bye(worker)
  {
    ResultRoundTrip(other, path, events, micros, worker);
    ClaimRoundTrip(WorkClaim(path, worker));
    GoodbyeRoundTrip(Goodbye(worker));
    OneKind(other, EncodeClaim(WorkClaim(path, worker)));
    OneKind(other, EncodeGoodbye(Goodbye(worker)));
    hide DecodeResult, DecodeClaim, DecodeGoodbye, EncodeResult, EncodeClaim, EncodeGoodbye, Line;
  }

  lemma OneKind(other: string -> Option<real>, payload: string)
    ensures DecodeClaim(payload).Some? ==> DecodeResult(other, payload).None?
    ensures DecodeGoodbye(payload).Some? ==> DecodeResult(other, payload).None? && DecodeClaim(payload).None?
  {
    hide Lines, Stoll, Stod;
  }

  ghost predicate InputDecoded(other: string -> Option<real>, inp: Input) {
    inp.frame.Some? ==> exists payload :: inp.frame.value == FrameOf(other, payload)
  }

  ghost predicate CreditsBounded(c: Coord) {
    forall e :: e in Entries(c.registry) ==> e.events <= MAX_EVENTS
  }

  lemma {:induction false} SumBounded(es: set<Entry>, cap: nat)
    requires forall e :: e in es ==> e.events <= cap
    ensures EventSum(es) <= cap * |es|
    decreases |es|
  {
    if es != {} {
      var e :| e in es;
      EventSumTake(es, e);
      SumBounded(es - {e}, cap);
      assert cap * |es| == cap * (|es| - 1) + cap;
    }
  }

  // Whatever bytes arrive, the event total stays below 10^12 per file counted.
  lemma {:induction false} TotalBounded(other: string -> Option<real>, c: Coord, cfg: Config, start: int,
                                        inputs: seq<Input>)
    requires Running(c, cfg) && CreditsBounded(c)
    requires forall i :: 0 <= i < |inputs| ==> InputDecoded(other, inputs[i])
    ensures var d := After(c, cfg, start, inputs);
            CreditsBounded(d) && d.sum.totalEvents <= 1_000_000_000_000 * d.sum.filesOk
    decreases |inputs|
  {
    hide Inv, Pass, NoDuplicates, RegistryOk, Gone, OneCreditEach, DecodeResult, DecodeClaim, DecodeGoodbye, Entries;
    if inputs != [] {
      var n := |inputs| - 1;
      TotalBounded(other, c, cfg, start, inputs[..n]);
      RunConserves(c, cfg, start, inputs[..n]);
      var d := After(c, cfg, start, inputs[..n]);
      if d.open > 0 {
        PassKeeps(d, cfg, start, inputs[n]);
        MayCreditBounded(other, d, inputs[n]);
      }
    }
    RunConserves(c, cfg, start, inputs);
    SumBounded(Entries(After(c, cfg, start, inputs).registry), MAX_EVENTS);
  }

  lemma MayCreditBounded(other: string -> Option<real>, c: Coord, inp: Input)
    requires InputDecoded(other, inp)
    ensures forall e :: e in MayCredit(c, inp.frame) ==> e.events <= MAX_EVENTS
  {
    if inp.frame.Some? {
      var payload :| inp.frame.value == FrameOf(other, payload);
      hide Lines, Stoll, Stod;
      assert DecodeResult(other, payload).Some? ==> DecodeResult(other, payload).value.events <= MAX_EVENTS;
    }
  }
}
