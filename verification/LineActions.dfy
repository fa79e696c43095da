// What the converter makes of a line, told from the bytes of the line.
module LineActions {
  import opened Bytes
  import opened Sequences
  import opened Options
  import opened LineBuffers
  import opened LineLaws
  import opened Converter
  import opened ConverterLaws
  import opened LineSyntax
  import opened TestForest

  // ------------------------------------------------------------ actions by name

  function LowerByte(c: byte): byte {
    if 0x41 <= c <= 0x5A then c + 32 else c
  }

  function LowerText(s: seq<byte>): seq<byte> {
    seq(|s|, i requires 0 <= i < |s| => LowerByte(s[i]))
  }

  // The action as the JSON event spells it.
  function Spelled(a: Action): seq<byte> {
    match a
    case Run => Ascii("run")
    case Pause => Ascii("pause")
    case Cont => Ascii("cont")
    case Pass => Ascii("pass")
    case Fail => Ascii("fail")
    case Skip => Ascii("skip")
    case Bench => Ascii("bench")
    case Output => Ascii("output")
  }

  lemma {:induction false} MagicFound(magics: seq<(seq<byte>, Action)>, s: seq<byte>) returns (m: nat)
    requires FindMagic(magics, s).Some?
    ensures m < |magics| && HasPrefix(s, magics[m].0) && FindMagic(magics, s) == Some(magics[m].1)
    decreases |magics|
  {
    if HasPrefix(s, magics[0].0) {
      m := 0;
    } else {
      m := MagicFound(magics[1..], s);
      m := m + 1;
    }
  }

  // Between byte 4 and the byte end, which comes at n for the first time, stands
  // the name of the action.
  ghost predicate Names(s: seq<byte>, mark: seq<byte>, end: byte, n: nat, a: Action) {
    && 4 < n < |s| && s[..4] == mark && s[n] == end && (forall i :: 4 <= i < n ==> s[i] != end)
    && LowerText(s[4..n]) == Spelled(a)
  }

  lemma UpdateNamed(s: seq<byte>, m: nat) returns (n: nat)
    requires m < |UPDATES| && HasPrefix(s, UPDATES[m].0)
    ensures Names(s, Ascii("=== "), SPACE, n, UPDATES[m].1)
  {
    n := if m == 1 then 9 else if m == 0 then 7 else 8;
    var magic := UPDATES[m].0;
    assert forall i | 0 <= i < 10 :: s[i] == magic[i];
    assert |s| >= 10;
    if m == 0 {
      assert LowerText(s[4..7]) == Ascii("run");
    } else if m == 1 {
      assert LowerText(s[4..9]) == Ascii("pause");
    } else {
      assert LowerText(s[4..8]) == Ascii("cont");
    }
  }

  lemma ReportNamed(s: seq<byte>, m: nat) returns (n: nat)
    requires m < |REPORTS| && HasPrefix(s, REPORTS[m].0)
    ensures Names(s, Ascii("--- "), COLON, n, REPORTS[m].1) && IndexOf(s, COLON) == n
  {
    n := if m == 3 then 9 else 8;
    var magic := REPORTS[m].0;
    assert |s| >= |magic| && forall i | 0 <= i < |magic| :: s[i] == magic[i];
    if m == 0 {
      assert LowerText(s[4..8]) == Ascii("pass");
    } else if m == 1 {
      assert LowerText(s[4..8]) == Ascii("fail");
    } else if m == 2 {
      assert LowerText(s[4..8]) == Ascii("skip");
    } else {
      assert LowerText(s[4..9]) == Ascii("bench");
    }
    assert s[..4] == Ascii("--- ");
    IndexIs(s, COLON, n);
  }

  // The action of an update is the lower-cased text of its line from byte 4 to
  // the first space.
  lemma UpdateActionIsItsText(env: Env, line: seq<byte>) returns (n: nat)
    requires Classify(env, line).Update?
    ensures Names(line, Ascii("=== "), SPACE, n, Classify(env, line).action)
  {
    hide CutElapsed, Names, Dedented, Indent;
    var m := MagicFound(UPDATES, line);
    n := UpdateNamed(line, m);
  }

  // The action of a result is the lower-cased text behind its indentation, from
  // byte 4 to the first colon; its name is what comes then.
  lemma ReportActionIsItsText(env: Env, line: seq<byte>) returns (n: nat, body: seq<byte>)
    requires Classify(env, line).Report?
    ensures n < |body| && Names(body, Ascii("--- "), COLON, n, Classify(env, line).action)
    ensures line == Spaces(Classify(env, line).indent) + body
    ensures Classify(env, line).name == CutElapsed(env.trimSpace(body[n + 1..]))
  {
    hide CutElapsed, Dedented, Indent, Spaces;
    body := Dedented(line);
    DedentedIs(line);
    var m := MagicFound(REPORTS, body);
    n := ReportNamed(body, m);
    hide Names;
  }

  lemma {:induction false} DedentedIs(line: seq<byte>)
    ensures line == Spaces(Indent(line)) + Dedented(line) && !HasPrefix(Dedented(line), FOUR_SPACE)
    decreases |line|
  {
    if HasPrefix(line, FOUR_SPACE) {
      DedentedIs(line[4..]);
      assert line == FOUR_SPACE + line[4..];
      Assoc(FOUR_SPACE, Spaces(Indent(line[4..])), Dedented(line[4..]));
    } else {
      assert line == [] + line;
    }
  }

  // How go test introduces the lines of an action.
  function Banner(a: Action): seq<byte> {
    match a
    case Run => Ascii("=== RUN   ")
    case Pause => Ascii("=== PAUSE ")
    case Cont => Ascii("=== CONT  ")
    case Pass => Ascii("--- PASS: ")
    case Fail => Ascii("--- FAIL: ")
    case Skip => Ascii("--- SKIP: ")
    case Bench => Ascii("--- BENCH: ")
    case Output => []
  }

  // Every update that go test prints is read as that update.
  lemma UpdateRead(env: Env, a: Action, text: seq<byte>)
    requires a == Run || a == Pause || a == Cont
    ensures Classify(env, Banner(a) + text) == Update(a, env.trimSpace(text))
  {
    hide Classify, Ascii;
    ReadsUpdate(env, if a == Run then 0 else if a == Pause then 1 else 2, text);
  }

  // Every result that it prints, at any depth, is read as that result.
  lemma ReportRead(env: Env, a: Action, depth: nat, text: seq<byte>)
    requires a == Pass || a == Fail || a == Skip || a == Bench
    ensures Classify(env, Spaces(depth) + (Banner(a) + text)) ==
      Report(a, CutElapsed(env.trimSpace([SPACE] + text)), depth)
  {
    hide Classify, CutElapsed, Ascii;
    ReadsReport(env, depth, if a == Pass then 0 else if a == Fail then 1 else if a == Skip then 2 else 3, text);
  }

  // The final line and nothing else is taken for one.
  lemma FinalRead(env: Env, line: seq<byte>)
    ensures Classify(env, line) == Final(true) <==> line == Ascii("PASS\n")
    ensures Classify(env, line) == Final(false) <==> line == Ascii("FAIL\n")
  {
    hide FindMagic, CutElapsed, Dedented, Indent;
    assert Ascii("PASS\n")[0] != Ascii("FAIL\n")[0];
  }

  // ---------------------------------------------------------------- the summary

  // The lines that go test prints for a package without test files.
  ghost predicate NoTestFiles(x: seq<byte>) {
    HasPrefix(x, Ascii("?   \t")) && HasSuffix(x, Ascii("\t[no test files]\n"))
  }

  // The number of pending results after a line.
  function DepthAfter(env: Env, depth: nat, call: Call): nat {
    if call.Part? then depth
    else
      match Classify(env, call.x)
      case Plain => depth
      case Report(_, _, indent) => if indent <= depth then indent + 1 else depth
      case _ => 0
  }

  // What a call makes of the summary.
  ghost function SummaryAfter(before: Option<Action>, depth: nat, call: Call): Option<Action> {
    if call.Part? then before
    else if call.x == Ascii("PASS\n") then Some(Pass)
    else if call.x == Ascii("FAIL\n") then Some(Fail)
    else if NoTestFiles(call.x) && depth == 0 then Some(Skip)
    else before
  }

  // What the final lines say: the last of them, or that there was nothing to test.
  ghost function Verdict(env: Env, before: Option<Action>, depth: nat, calls: seq<Call>): Option<Action>
    decreases |calls|
  {
    if calls == [] then before
    else Verdict(env, SummaryAfter(before, depth, calls[0]), DepthAfter(env, depth, calls[0]), calls[1..])
  }

  lemma ResultAfter(env: Env, c: State, call: Call)
    requires c.Ok(env)
    ensures Handle(env, c, call).result == SummaryAfter(c.result, |c.report|, call)
  {
    if call.Line? {
      FinalRead(env, call.x);
    }
    hide Classify, WriteTo, PopReports, Ascii;
    PopReportsKeeps(c.(testName := []), 0);
    if call.Line? {
      var k := NoteSkip(c, call.x);
      PopReportsKeeps(k.(testName := []), 0);
      match Classify(env, call.x) {
        case Report(_, _, indent) => PopReportsKeeps(k.(testName := []), indent);
        case _ =>
      }
    }
  }

  lemma DepthIs(env: Env, c: State, call: Call)
    requires c.Ok(env)
    ensures |Handle(env, c, call).report| == DepthAfter(env, |c.report|, call)
  {
    hide Classify, WriteTo, PopReports;
    PopReportsKeeps(c.(testName := []), 0);
    if call.Line? {
      var k := NoteSkip(c, call.x);
      PopReportsKeeps(k.(testName := []), 0);
      match Classify(env, call.x) {
        case Report(_, _, indent) => PopReportsKeeps(k.(testName := []), indent);
        case _ =>
      }
    }
  }

  lemma {:induction false} ResultIsVerdict(env: Env, c: State, calls: seq<Call>)
    requires c.Ok(env)
    ensures HandleAll(env, c, calls).result == Verdict(env, c.result, |c.report|, calls)
    decreases |calls|
  {
    hide Handle, SummaryAfter, DepthAfter;
    if calls != [] {
      ResultAfter(env, c, calls[0]);
      DepthIs(env, c, calls[0]);
      ResultIsVerdict(env, Handle(env, c, calls[0]), calls[1..]);
    }
  }

  // The last event of a run is its summary: what the final lines say, or fail.
  lemma SummaryIsVerdict(env: Env, ws: seq<seq<byte>>)
    requires env.Ok()
    ensures var es, v := Events(env, ws), Verdict(env, None, 0, CallsOf(env, ws));
      es != [] && es[|es| - 1].output.None? && es[|es| - 1].action == if v.Some? then v.value else Fail
  {
    hide HandleAll, CallsOf, Verdict, Events;
    EventsAre(env, ws);
    ResultIsVerdict(env, START, CallsOf(env, ws));
  }

  // ---------------------------------------------------------- the events of a line

  // Output events of the given bytes under the given name.
  ghost predicate Outputs(es: seq<Event>, name: seq<byte>, bytes: seq<byte>) {
    && OutputOf(es) == bytes
    && forall i :: 0 <= i < |es| ==> es[i].action == Output && es[i].output.Some? && es[i].test == name
  }

  // The events that a line adds: results that are done, deepest first, then the
  // line itself as output, and an update before it, or after it for a pause.
  ghost predicate LineMakes(c: State, k: Kind, line: seq<byte>, outs: seq<Event>, more: seq<Event>) {
    match k
    case Plain => Outputs(outs, c.testName, line) && more == outs
    case Final(_) => Outputs(outs, [], line) && more == Reverse(c.report) + outs
    case Report(_, name, indent) =>
      if |c.report| < indent then Outputs(outs, c.testName, line) && more == outs
      else Outputs(outs, name, line) && more == Reverse(c.report[indent..]) + outs
    case Update(action, name) =>
      && Outputs(outs, name, line)
      && more == Reverse(c.report) + if action == Pause then outs + [Event(action, name, None)]
                                     else [Event(action, name, None)] + outs
  }

  lemma {:induction false} PopAppends(c: State, depth: nat)
    requires c.testName == []
    ensures PopReports(c, depth).events ==
      c.events + (if |c.report| <= depth then [] else Reverse(c.report[depth..]))
    decreases |c.report|
  {
    hide Reverse;
    if |c.report| > depth {
      var n := |c.report| - 1;
      var e, rest := c.report[n], c.report[..n];
      PopAppends(WriteEvent(c.(report := rest), e), depth);
      var tail := if n <= depth then [] else rest[depth..];
      TailSnoc(c.report, depth, tail);
      ReverseSnoc(tail, e);
      ReverseNone();
      Assoc(c.events, [e], Reverse(tail));
    }
  }

  lemma FlushAppends(c: State, depth: nat)
    requires depth <= |c.report|
    ensures var f := FlushReport(c, depth);
      && f.events == c.events + Reverse(c.report[depth..]) && f.testName == [] && f.output == c.output
      && f.report == c.report[..depth]
  {
    hide Reverse;
    PopAppends(c.(testName := []), depth);
    PopReportsKeeps(c.(testName := []), depth);
    ReverseNone();
    if |c.report| == depth {
      assert c.report[depth..] == [] && c.report[..depth] == c.report;
    }
  }

  lemma {:induction false} OutputsOfCalls(calls: seq<Call>, name: seq<byte>)
    ensures Outputs(OutputEvents(calls, name), name, Flat(calls))
    decreases |calls|
  {
    if calls != [] {
      OutputsOfCalls(calls[1..], name);
      var e, rest := Event(Output, name, Some(calls[0].x)), OutputEvents(calls[1..], name);
      assert ([e] + rest)[1..] == rest;
    }
  }

  // A whole line written to an idle output buffer comes out at once.
  lemma WriteOutMakes(env: Env, c: State, line: seq<byte>) returns (outs: seq<Event>)
    requires c.Ok(env) && c.output == EMPTY && EndsLine(line)
    ensures WriteOut(env, c, line) == c.(events := c.events + outs) && Outputs(outs, c.testName, line)
  {
    hide WriteTo, Outputs, Flat;
    var s := WriteTo(env.output, EMPTY, line);
    WriteTrace(env.output, EMPTY, line);
    WriteConserves(env.output, EMPTY, line);
    assert [] + line == line;
    assert Flat(s.calls) + [] == Flat(s.calls);
    outs := OutputEvents(s.calls, c.testName);
    OutputsOfCalls(s.calls, c.testName);
  }

  // What handleInputLine writes for a line, entered with an idle output buffer.
  lemma LineEvents(env: Env, c: State, line: seq<byte>) returns (outs: seq<Event>, more: seq<Event>)
    requires c.Ok(env) && c.output == EMPTY && EndsLine(line)
    ensures HandleLine(env, c, line).events == c.events + more
    ensures LineMakes(c, Classify(env, line), line, outs, more)
  {
    hide WriteOut, FlushReport, Classify, Reverse, Outputs;
    var k := NoteSkip(c, line);
    match Classify(env, line) {
      case Final(_) =>
        FlushAppends(c, 0);
        assert c.report[0..] == c.report;
        outs := WriteOutMakes(env, FlushReport(c, 0), line);
        more := Reverse(c.report) + outs;
        Assoc(c.events, Reverse(c.report), outs);
      case Plain =>
        outs := WriteOutMakes(env, k, line);
        more := outs;
      case Report(action, name, indent) =>
        if |c.report| < indent {
          outs := WriteOutMakes(env, k, line);
          more := outs;
        } else {
          FlushAppends(k, indent);
          outs := WriteOutMakes(env, AcceptReport(k, action, name, indent), line);
          more := Reverse(c.report[indent..]) + outs;
          Assoc(c.events, Reverse(c.report[indent..]), outs);
        }
      case Update(action, name) =>
        FlushAppends(k, 0);
        assert c.report[0..] == c.report;
        var f := FlushReport(k, 0).(testName := name);
        var e, r := Event(action, name, None), Reverse(c.report);
        if action == Pause {
          outs := WriteOutMakes(env, f, line);
          more := r + (outs + [e]);
          Assoc(c.events, r, outs);
          Assoc(c.events, r + outs, [e]);
          Assoc(r, outs, [e]);
        } else {
          outs := WriteOutMakes(env, WriteEvent(f, Event(action, [], None)), line);
          more := r + ([e] + outs);
          Assoc(c.events, r, [e]);
          Assoc(c.events, r + [e], outs);
          Assoc(r, [e], outs);
        }
    }
  }
}
