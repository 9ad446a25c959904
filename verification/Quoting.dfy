// The Windows command line: arguments joined by append_quoted, split again by the
// Microsoft C runtime's rules.
module Quoting {

  predicate Blank(c: char) {
    c == ' ' || c == '\t'
  }

  predicate NeedsQuotes(arg: string) {
    arg == "" || exists i :: 0 <= i < |arg| && (Blank(arg[i]) || arg[i] == '"')
  }

  function Backslashes(n: nat): (s: string)
    ensures |s| == n && forall i :: 0 <= i < n ==> s[i] == '\\'
  {
    seq(n, _ => '\\')
  }

  /******* The printer *******/

  // What has been printed of an argument, and how many backslashes are held back.
  datatype Scan = Scan(out: string, held: nat)

  function ScanOf(arg: string): Scan {
    if arg == "" then Scan("", 0)
    else
      var s := ScanOf(arg[..|arg| - 1]);
      var c := arg[|arg| - 1];
      if c == '\\' then Scan(s.out, s.held + 1)
      else if c == '"' then Scan(s.out + Backslashes(2 * s.held + 1) + "\"", 0)
      else Scan(s.out + Backslashes(s.held) + [c], 0)
  }

  function Quoted(arg: string): string {
    if !NeedsQuotes(arg) then arg
    else
      var s := ScanOf(arg);
      "\"" + s.out + Backslashes(2 * s.held) + "\""
  }

  lemma ScanStep(arg: string, i: nat)
    requires i < |arg|
    ensures var s := ScanOf(arg[..i]);
            ScanOf(arg[..i + 1]) == (
              if arg[i] == '\\' then Scan(s.out, s.held + 1)
              else if arg[i] == '"' then Scan(s.out + Backslashes(2 * s.held + 1) + "\"", 0)
              else Scan(s.out + Backslashes(s.held) + [arg[i]], 0))
  {
    assert arg[..i + 1][..i] == arg[..i];
  }

  lemma Regroup(a: string, b: string, c: string, d: string)
    ensures a + b + c + d == a + (b + c + d) == a + (b + (c + d)) && b + c + d == b + (c + d)
  {
  }

  // The loop's state after i characters.
  ghost predicate Printed(start: string, arg: string, i: nat, more: string, held: nat)
    requires i <= |arg|
  {
    more == start + "\"" + ScanOf(arg[..i]).out && held == ScanOf(arg[..i]).held
  }

  lemma PrintStart(start: string, arg: string)
    ensures Printed(start, arg, 0, start + "\"", 0)
  {
    assert arg[..0] == "";
  }

  lemma PrintStep(start: string, arg: string, i: nat, more: string, held: nat)
    requires i < |arg| && Printed(start, arg, i, more, held)
    ensures arg[i] == '\\' ==> Printed(start, arg, i + 1, more, held + 1)
    ensures arg[i] == '"' ==> Printed(start, arg, i + 1, more + Backslashes(2 * held + 1) + "\"", 0)
    ensures arg[i] != '\\' && arg[i] != '"' ==> Printed(start, arg, i + 1, more + Backslashes(held) + [arg[i]], 0)
  {
    ScanStep(arg, i);
    hide ScanOf, Backslashes;
    var s := ScanOf(arg[..i]);
    if arg[i] == '"' {
      Regroup(start + "\"", s.out, Backslashes(2 * held + 1), "\"");
    } else if arg[i] != '\\' {
      Regroup(start + "\"", s.out, Backslashes(held), [arg[i]]);
    }
  }

  lemma PrintEnd(start: string, arg: string, more: string, held: nat)
    requires NeedsQuotes(arg) && Printed(start, arg, |arg|, more, held)
    ensures more + Backslashes(2 * held) + "\"" == start + Quoted(arg)
  {
    assert arg[..|arg|] == arg;
    hide ScanOf, Backslashes, NeedsQuotes;
    Regroup(start, "\"", ScanOf(arg).out, Backslashes(2 * held) + "\"");
    Regroup(start + "\"", ScanOf(arg).out, Backslashes(2 * held), "\"");
  }

  method AppendQuoted(cl: string, arg: string) returns (more: string)
    ensures more == cl + (if cl == "" then "" else " ") + Quoted(arg)
  {
    more := cl;
    if cl != "" {
      more := more + " ";
    }
    var quote := arg == "";
    for i := 0 to |arg|
      invariant quote <==> arg == "" || exists j :: 0 <= j < i && (Blank(arg[j]) || arg[j] == '"')
    {
      quote := quote || Blank(arg[i]) || arg[i] == '"';
    }
    if !quote {
      return more + arg;
    }
    hide Printed, ScanOf, Backslashes, Quoted;
    ghost var start := more;
    PrintStart(start, arg);
    more := more + "\"";
    var backslashes := 0;
    for i := 0 to |arg|
      invariant Printed(start, arg, i, more, backslashes)
    {
      PrintStep(start, arg, i, more, backslashes);
      if arg[i] == '\\' {
        backslashes := backslashes + 1;
      } else if arg[i] == '"' {
        more := more + Backslashes(2 * backslashes + 1) + "\"";
        backslashes := 0;
      } else {
        more := more + Backslashes(backslashes) + [arg[i]];
        backslashes := 0;
      }
    }
    PrintEnd(start, arg, more, backslashes);
    more := more + Backslashes(2 * backslashes) + "\"";
  }

  lemma {:induction false} PrintsAll(arg: string)
    ensures |ScanOf(arg).out| + ScanOf(arg).held >= |arg|
  {
    if arg != "" {
      PrintsAll(arg[..|arg| - 1]);
    }
  }

  // An argument is printed as it is exactly when there is something to print and
  // no blank, tab or quote in it.
  lemma PlainIff(arg: string)
    ensures Quoted(arg) == arg <==> arg != "" && ' ' !in arg && '\t' !in arg && '"' !in arg
  {
    PrintsAll(arg);
    hide ScanOf;
  }

  // Every argument after the program name, each behind its space.
  function Tail(args: seq<string>): string {
    if args == [] then "" else " " + Quoted(args[0]) + Tail(args[1..])
  }

  method BuildLine(app: string, args: seq<string>) returns (line: string)
    ensures line == Quoted(app) + Tail(args)
  {
    hide Quoted;
    line := AppendQuoted("", app);
    QuotedNotEmpty(app);
    assert args[0..] == args;
    for i := 0 to |args|
      invariant line != "" && line + Tail(args[i..]) == Quoted(app) + Tail(args)
    {
      TailStep(line, args, i);
      line := AppendQuoted(line, args[i]);
    }
  }

  lemma TailStep(line: string, args: seq<string>, i: nat)
    requires i < |args|
    ensures line + Tail(args[i..]) == line + " " + Quoted(args[i]) + Tail(args[i + 1..])
  {
    hide Quoted;
    assert args[i..][1..] == args[i + 1..] && args[i..][0] == args[i];
    assert Tail(args[i..]) == " " + Quoted(args[i]) + Tail(args[i + 1..]);
  }

  lemma QuotedNotEmpty(arg: string)
    ensures Quoted(arg) != "" && !Blank(Quoted(arg)[0])
  {
    if !NeedsQuotes(arg) {
      assert !Blank(arg[0]);
    }
  }

  /******* The C runtime's parser *******/

  function Slashes(s: string): (n: nat)
    ensures n <= |s| && (forall i :: 0 <= i < n ==> s[i] == '\\') && (n < |s| ==> s[n] != '\\')
  {
    if s != "" && s[0] == '\\' then 1 + Slashes(s[1..]) else 0
  }

  datatype Parsed = Parsed(arg: string, rest: string)

  function Emit(s: string, p: Parsed): Parsed {
    Parsed(s + p.arg, p.rest)
  }

  // One argument. Runs of backslashes count only in front of a quote; a quote
  // behind an even run toggles quoting. Newer runtimes also read a doubled quote
  // inside quotes as a literal one (`doubled`).
  function ParseArg(s: string, inQuotes: bool, doubled: bool): (p: Parsed)
    ensures |p.rest| <= |s| && (s != "" && !Blank(s[0]) ==> |p.rest| < |s|)
    decreases |s|
  {
    var k := Slashes(s);
    var t := s[k..];
    if t != "" && t[0] == '"' then
      if k % 2 == 1 then Emit(Backslashes(k / 2) + "\"", ParseArg(t[1..], inQuotes, doubled))
      else if doubled && inQuotes && |t| > 1 && t[1] == '"' then
        Emit(Backslashes(k / 2) + "\"", ParseArg(t[2..], inQuotes, doubled))
      else Emit(Backslashes(k / 2), ParseArg(t[1..], !inQuotes, doubled))
    else if t == "" || (!inQuotes && Blank(t[0])) then Parsed(Backslashes(k), t)
    else Emit(Backslashes(k) + [t[0]], ParseArg(t[1..], inQuotes, doubled))
  }

  function ParseArgs(s: string, doubled: bool): seq<string>
    decreases |s|
  {
    if s == "" then []
    else if Blank(s[0]) then ParseArgs(s[1..], doubled)
    else
      var p := ParseArg(s, false, doubled);
      [p.arg] + ParseArgs(p.rest, doubled)
  }

  // The program name is read by simpler rules: quotes toggle, backslashes are
  // ordinary characters.
  function ParseProgram(s: string, inQuotes: bool): Parsed {
    if s == "" || (!inQuotes && Blank(s[0])) then Parsed("", s)
    else if s[0] == '"' then ParseProgram(s[1..], !inQuotes)
    else Emit([s[0]], ParseProgram(s[1..], inQuotes))
  }

  function ParseLine(line: string, doubled: bool): seq<string> {
    var p := ParseProgram(line, false);
    [p.arg] + ParseArgs(p.rest, doubled)
  }

  /******* Round trip *******/

  lemma {:induction false} SlashesOf(n: nat, z: string)
    requires z == "" || z[0] != '\\'
    ensures Slashes(Backslashes(n) + z) == n
  {
    if n > 0 {
      assert (Backslashes(n) + z)[1..] == Backslashes(n - 1) + z;
      SlashesOf(n - 1, z);
    } else {
      assert Backslashes(0) + z == z;
    }
  }

  // n backslashes in front of something that is not one.
  lemma ParseRun(n: nat, z: string, inQuotes: bool, doubled: bool)
    requires z != "" && z[0] != '\\'
    ensures var s := Backslashes(n) + z;
            && (z[0] == '"' && n % 2 == 1 ==>
                  ParseArg(s, inQuotes, doubled) == Emit(Backslashes(n / 2) + "\"",
                                                         ParseArg(z[1..], inQuotes, doubled)))
            && (z[0] == '"' && n % 2 == 0 && !(|z| > 1 && z[1] == '"') ==>
                  ParseArg(s, inQuotes, doubled) == Emit(Backslashes(n / 2), ParseArg(z[1..], !inQuotes, doubled)))
            && (z[0] != '"' && (inQuotes || !Blank(z[0])) ==>
                  ParseArg(s, inQuotes, doubled) == Emit(Backslashes(n) + [z[0]], ParseArg(z[1..], inQuotes, doubled)))
            && (z[0] != '"' && !inQuotes && Blank(z[0]) ==> ParseArg(s, inQuotes, doubled) == Parsed(Backslashes(n), z))
  {
    var s := Backslashes(n) + z;
    SlashesOf(n, z);
    assert s[n..] == z;
    hide Backslashes, Slashes, Emit;
  }

  // What has been read back once the printed part of arg has been parsed.
  function Emitted(arg: string): string
  {
    var k := ScanOf(arg).held;
    if k <= |arg| then arg[..|arg| - k] else arg
  }

  lemma {:induction false} HeldTrails(arg: string)
    ensures var k := ScanOf(arg).held; k <= |arg| && arg == Emitted(arg) + Backslashes(k)
  {
    if arg != "" {
      var n := |arg| - 1;
      HeldTrails(arg[..n]);
      assert arg == arg[..n] + [arg[n]];
      var k := ScanOf(arg[..n]).held;
      assert Backslashes(k + 1) == Backslashes(k) + "\\";
    }
  }

  // The character c, printed behind s held-back backslashes, is read back as them and itself.
  lemma ParseUnit(held: nat, c: char, z: string, doubled: bool)
    requires c != '\\'
    ensures var m := if c == '"' then 2 * held + 1 else held;
            ParseArg(Backslashes(m) + ([c] + z), true, doubled)
                == Emit(Backslashes(held) + [c], ParseArg(z, true, doubled))
  {
    var m := if c == '"' then 2 * held + 1 else held;
    hide ParseArg, Backslashes;
    assert ([c] + z)[1..] == z;
    ParseRun(m, [c] + z, true, doubled);
  }

  lemma EmittedUnit(a: string, c: char)
    ensures c == '\\' ==> ScanOf(a + [c]).out == ScanOf(a).out && Emitted(a + [c]) == Emitted(a)
    ensures c != '\\' ==> var m := if c == '"' then 2 * ScanOf(a).held + 1 else ScanOf(a).held;
                           && ScanOf(a + [c]).out == ScanOf(a).out + (Backslashes(m) + [c])
                           && Emitted(a + [c]) == Emitted(a) + (Backslashes(ScanOf(a).held) + [c])
  {
    assert (a + [c])[..|a|] == a;
    ScanStep(a + [c], |a|);
    HeldTrails(a);
    hide Backslashes, ScanOf;
  }

  lemma EmitTwice(s: string, t: string, p: Parsed)
    ensures Emit(s, Emit(t, p)) == Emit(s + t, p)
  {
    assert s + (t + p.arg) == s + t + p.arg;
  }

  lemma ParseTwice(out: string, out': string, more: string, z: string, e: string, u: string, doubled: bool)
    requires out' + z == out + more
    requires ParseArg(out + more, true, doubled) == Emit(e, ParseArg(more, true, doubled))
    requires ParseArg(more, true, doubled) == Emit(u, ParseArg(z, true, doubled))
    ensures ParseArg(out' + z, true, doubled) == Emit(e + u, ParseArg(z, true, doubled))
  {
    hide ParseArg;
    EmitTwice(e, u, ParseArg(z, true, doubled));
  }

  lemma NextUnit(out: string, slashes: string, c: string, z: string)
    ensures out + (slashes + c) + z == out + (slashes + (c + z))
  {
  }

  // What the printer has yet to emit for c, in front of z.
  ghost function Unit(held: nat, c: char, z: string): string {
    Backslashes(if c == '"' then 2 * held + 1 else held) + ([c] + z)
  }

  lemma ParseScanUnit(a: string, c: char, z: string, doubled: bool)
    requires c != '\\'
    requires var more := Unit(ScanOf(a).held, c, z);
             ParseArg(ScanOf(a).out + more, true, doubled) == Emit(Emitted(a), ParseArg(more, true, doubled))
    ensures ParseArg(ScanOf(a + [c]).out + z, true, doubled) == Emit(Emitted(a + [c]), ParseArg(z, true, doubled))
  {
    hide ParseArg, ScanOf, Emitted, Backslashes, Emit;
    var s := ScanOf(a);
    var slashes := Backslashes(if c == '"' then 2 * s.held + 1 else s.held);
    EmittedUnit(a, c);
    NextUnit(s.out, slashes, [c], z);
    ParseUnit(s.held, c, z, doubled);
    ParseTwice(s.out, ScanOf(a + [c]).out, Unit(s.held, c, z), z, Emitted(a), Backslashes(s.held) + [c], doubled);
  }

  lemma {:induction false} ParseScan(arg: string, z: string, doubled: bool)
    ensures ParseArg(ScanOf(arg).out + z, true, doubled) == Emit(Emitted(arg), ParseArg(z, true, doubled))
    decreases |arg|
  {
    if arg == "" {
      assert "" + z == z;
    } else {
      hide *;
      var a, c := arg[..|arg| - 1], arg[|arg| - 1];
      assert arg == a + [c];
      if c == '\\' {
        EmittedUnit(a, c);
        ParseScan(a, z, doubled);
      } else {
        ParseScan(a, Unit(ScanOf(a).held, c, z), doubled);
        ParseScanUnit(a, c, z, doubled);
      }
    }
  }

  lemma {:induction false} ParsePlain(arg: string, z: string, doubled: bool)
    requires forall i :: 0 <= i < |arg| ==> !Blank(arg[i]) && arg[i] != '"'
    requires z == "" || Blank(z[0])
    ensures ParseArg(arg + z, false, doubled) == Parsed(arg, z)
    decreases |arg|
  {
    var k := Slashes(arg);
    if k == |arg| {
      assert arg == Backslashes(k);
      SlashesOf(k, z);
      assert (arg + z)[k..] == z;
    } else {
      var rest := arg[k + 1..];
      assert arg + z == Backslashes(k) + ([arg[k]] + (rest + z));
      assert ([arg[k]] + (rest + z))[1..] == rest + z;
      assert arg == Backslashes(k) + [arg[k]] + rest;
      hide ParseArg, Slashes, Backslashes;
      ParsePlain(rest, z, doubled);
      ParseRun(k, [arg[k]] + (rest + z), false, doubled);
    }
  }

  // What an argument in quotes leaves to parse once the opening quote is read.
  ghost function Inner(arg: string, z: string): string {
    Backslashes(2 * ScanOf(arg).held) + ("\"" + z)
  }

  lemma OpensWith(arg: string, z: string)
    requires NeedsQuotes(arg)
    ensures Quoted(arg) + z == "\"" + (ScanOf(arg).out + Inner(arg, z))
  {
    hide ScanOf, NeedsQuotes, Backslashes;
    var s := ScanOf(arg);
    Regroup("\"", s.out, Backslashes(2 * s.held), "\"" + z);
    assert Quoted(arg) + z == "\"" + s.out + Backslashes(2 * s.held) + ("\"" + z);
  }

  lemma QuotedOpens(arg: string, z: string, doubled: bool)
    requires NeedsQuotes(arg)
    ensures ParseArg(Quoted(arg) + z, false, doubled) == ParseArg(ScanOf(arg).out + Inner(arg, z), true, doubled)
  {
    hide *;
    OpensWith(arg, z);
    OpenQuote(ScanOf(arg).out + Inner(arg, z), doubled);
  }

  lemma QuotedCloses(arg: string, z: string, doubled: bool)
    requires z == "" || Blank(z[0])
    ensures ParseArg(Inner(arg, z), true, doubled) == Emit(Backslashes(ScanOf(arg).held), Parsed("", z))
  {
    hide ParseArg, ScanOf, Backslashes, Emit;
    assert ("\"" + z)[1..] == z;
    ParseRun(2 * ScanOf(arg).held, "\"" + z, true, doubled);
    ParseNothing(z, doubled);
  }

  lemma EmitAll(s: string, t: string, arg: string, z: string)
    requires arg == s + t
    ensures Emit(s, Emit(t, Parsed("", z))) == Parsed(arg, z)
  {
  }

  // One argument in front of the end of the line or of a space.
  lemma ParseQuoted(arg: string, z: string, doubled: bool)
    requires z == "" || Blank(z[0])
    ensures ParseArg(Quoted(arg) + z, false, doubled) == Parsed(arg, z)
  {
    if NeedsQuotes(arg) {
      hide *;
      HeldTrails(arg);
      QuotedOpens(arg, z, doubled);
      ParseScan(arg, Inner(arg, z), doubled);
      QuotedCloses(arg, z, doubled);
      EmitAll(Emitted(arg), Backslashes(ScanOf(arg).held), arg, z);
    } else {
      ParsePlain(arg, z, doubled);
    }
  }

  lemma OpenQuote(s: string, doubled: bool)
    ensures ParseArg("\"" + s, false, doubled) == ParseArg(s, true, doubled)
  {
    assert Slashes("\"" + s) == 0;
    assert ("\"" + s)[0..][1..] == s;
    assert Backslashes(0) == "";
  }

  lemma ParseNothing(z: string, doubled: bool)
    requires z == "" || Blank(z[0])
    ensures ParseArg(z, false, doubled) == Parsed("", z)
  {
    assert Slashes(z) == 0 && z[0..] == z && Backslashes(0) == "";
  }

  // The two treatments of a doubled quote inside quotes: one quote, or none.
  lemma DoubledIsQuote(z: string)
    ensures ParseArg("\"" + ("\"" + z), true, true) == Emit("\"", ParseArg(z, true, true))
  {
    var s := "\"" + ("\"" + z);
    assert Slashes(s) == 0;
    assert s[0..] == s && s[2..] == z && s[1] == '"';
    assert Backslashes(0 / 2) + "\"" == "\"";
  }

  lemma DoubledIsNothing(z: string)
    ensures ParseArg("\"" + ("\"" + z), true, false) == ParseArg(z, true, false)
  {
    hide *;
    CloseQuote("\"" + z);
    OpenQuote(z, false);
  }

  lemma CloseQuote(s: string)
    ensures ParseArg("\"" + s, true, false) == ParseArg(s, false, false)
  {
    assert Slashes("\"" + s) == 0;
    assert ("\"" + s)[0..][1..] == s;
    assert Backslashes(0) == "";
  }

  // For every list of arguments: empty ones, embedded quotes, trailing
  // backslashes, and whichever reading of doubled quotes the runtime has.
  lemma ReadsOne(arg: string, z: string, doubled: bool)
    requires z == "" || Blank(z[0])
    ensures ParseArgs(" " + (Quoted(arg) + z), doubled) == [arg] + ParseArgs(z, doubled)
  {
    var s := Quoted(arg) + z;
    QuotedNotEmpty(arg);
    ParseQuoted(arg, z, doubled);
    hide Quoted, ParseArg;
    assert (" " + s)[1..] == s;
    assert s != "" && s[0] == Quoted(arg)[0];
  }

  lemma {:induction false} ArgumentsRoundTrip(args: seq<string>, doubled: bool)
    ensures ParseArgs(Tail(args), doubled) == args
  {
    if args != [] {
      var z := Tail(args[1..]);
      hide Quoted, ParseArgs;
      assert Tail(args) == " " + (Quoted(args[0]) + z);
      assert z == "" || Blank(z[0]);
      ReadsOne(args[0], z, doubled);
      ArgumentsRoundTrip(args[1..], doubled);
    }
    assert args == [] ==> ParseArgs("", doubled) == [];
  }

  /******* The program name *******/

  ghost predicate PlainProgram(app: string) {
    '"' !in app && (NeedsQuotes(app) && app != "" ==> app[|app| - 1] != '\\')
  }

  lemma {:induction false} ProgramHasNoQuote(s: string, inQuotes: bool)
    ensures '"' !in ParseProgram(s, inQuotes).arg
  {
    if s != "" {
      ProgramHasNoQuote(s[1..], inQuotes);
      ProgramHasNoQuote(s[1..], !inQuotes);
    }
  }

  lemma {:induction false} ProgramPlain(app: string, z: string, inQuotes: bool)
    requires forall i :: 0 <= i < |app| ==> app[i] != '"' && (inQuotes || !Blank(app[i]))
    ensures ParseProgram(app + z, inQuotes) == Emit(app, ParseProgram(z, inQuotes))
  {
    if app == "" {
      assert app + z == z;
    } else {
      assert (app + z)[1..] == app[1..] + z;
      ProgramPlain(app[1..], z, inQuotes);
    }
  }

  // Without quotes in it, a name is printed as it is.
  lemma {:induction false} ScanPlain(app: string)
    requires '"' !in app
    ensures ScanOf(app).out == Emitted(app)
  {
    if app != "" {
      var n := |app| - 1;
      ScanPlain(app[..n]);
      HeldTrails(app[..n]);
      HeldTrails(app);
      assert app == app[..n] + [app[n]];
    }
  }

  lemma PrintedProgram(app: string)
    requires '"' !in app
    ensures var s := ScanOf(app); s.out + Backslashes(2 * s.held) == app + Backslashes(s.held)
    ensures forall i :: 0 <= i < |app + Backslashes(ScanOf(app).held)| ==>
            (app + Backslashes(ScanOf(app).held))[i] != '"'
  {
    var k := ScanOf(app).held;
    ScanPlain(app);
    HeldTrails(app);
    assert Backslashes(2 * k) == Backslashes(k) + Backslashes(k);
    hide ScanOf, Emitted;
  }

  lemma BetweenQuotes(name: string, z: string)
    requires forall i :: 0 <= i < |name| ==> name[i] != '"'
    requires z == "" || Blank(z[0])
    ensures ParseProgram("\"" + name + "\"" + z, false) == Parsed(name, z)
  {
    var behind := "\"" + z;
    assert "\"" + name + "\"" + z == "\"" + (name + behind);
    hide ParseProgram;
    ToggleQuote(name + behind, false);
    ProgramPlain(name, behind, true);
    ToggleQuote(z, true);
    ProgramEnds(z);
    EmitNothing(name, z);
  }

  lemma QuotedProgram(app: string)
    requires '"' !in app && NeedsQuotes(app)
    ensures Quoted(app) == "\"" + (app + Backslashes(ScanOf(app).held)) + "\""
  {
    PrintedProgram(app);
    hide Backslashes, ScanOf, NeedsQuotes;
  }

  // A quoted program name reads back with its trailing backslashes doubled.
  lemma QuotedProgramParses(app: string, z: string)
    requires '"' !in app && NeedsQuotes(app) && (z == "" || Blank(z[0]))
    ensures ParseProgram(Quoted(app) + z, false) == Parsed(app + Backslashes(ScanOf(app).held), z)
  {
    hide *;
    PrintedProgram(app);
    QuotedProgram(app);
    BetweenQuotes(app + Backslashes(ScanOf(app).held), z);
  }

  lemma EmitNothing(s: string, z: string)
    ensures Emit(s, Parsed("", z)) == Parsed(s, z)
  {
  }

  lemma ProgramParses(app: string, z: string)
    requires '"' !in app && (z == "" || Blank(z[0]))
    ensures ParseProgram(Quoted(app) + z, false)
         == Parsed(if NeedsQuotes(app) then app + Backslashes(ScanOf(app).held) else app, z)
  {
    if NeedsQuotes(app) {
      hide *;
      QuotedProgramParses(app, z);
    } else {
      ProgramEnds(z);
      EmitNothing(app, z);
      ProgramPlain(app, z, false);
      hide ParseProgram, Emit;
    }
  }

  lemma ToggleQuote(z: string, inQuotes: bool)
    ensures ParseProgram("\"" + z, inQuotes) == ParseProgram(z, !inQuotes)
  {
    assert ("\"" + z)[1..] == z;
  }

  lemma ProgramEnds(z: string)
    requires z == "" || Blank(z[0])
    ensures ParseProgram(z, false) == Parsed("", z)
  {
  }

  // The whole line reads back as it was exactly when the program name holds no
  // quote and, if it had to be quoted, does not end in a backslash.
  lemma LineRoundTrip(app: string, args: seq<string>, doubled: bool)
    ensures ParseLine(Quoted(app) + Tail(args), doubled) == [app] + args <==> PlainProgram(app)
  {
    var line := Quoted(app) + Tail(args);
    if '"' in app {
      ProgramHasNoQuote(line, false);
      assert ParseLine(line, doubled)[0] != app;
      assert ([app] + args)[0] == app;
    } else {
      ProgramParses(app, Tail(args));
      ArgumentsRoundTrip(args, doubled);
      HeldTrails(app);
      var k := ScanOf(app).held;
      assert k == 0 <==> app == "" || app[|app| - 1] != '\\';
      if NeedsQuotes(app) {
        assert ParseLine(line, doubled) == [app + Backslashes(k)] + args;
        assert ([app + Backslashes(k)] + args)[0] == app + Backslashes(k) && ([app] + args)[0] == app;
        assert |app + Backslashes(k)| == |app| + k;
        assert k == 0 ==> app + Backslashes(k) == app;
      }
    }
  }
}
