// The test2json converter: input buffer, line handling, output buffer, events.
module Converter {
  import opened Bytes
  import opened Sequences
  import opened Options
  import opened LineBuffers

  datatype Action = Run | Pause | Cont | Pass | Fail | Skip | Bench | Output

  // The JSON event, without the package name, the timestamps and the elapsed time.
  datatype Event = Event(action: Action, test: seq<byte>, output: Option<seq<byte>>)

  // The two buffers and strings.TrimSpace.
  datatype Env = Env(input: Params, output: Params, trimSpace: seq<byte> -> seq<byte>) {
    predicate Ok() {
      input.cap >= 4 && output.cap >= 4
    }
  }

  function Ascii(s: string): (b: seq<byte>)
    requires forall i :: 0 <= i < |s| ==> s[i] < 128 as char
    ensures |b| == |s|
  {
    seq(|s|, i requires 0 <= i < |s| => s[i] as int as byte)
  }

  const COLON: byte := 0x3A
  const DASH: byte := 0x2D
  const BIG_PASS := Ascii("PASS\n")
  const BIG_FAIL := Ascii("FAIL\n")
  const UPDATES: seq<(seq<byte>, Action)> :=
    [(Ascii("=== RUN   "), Run), (Ascii("=== PAUSE "), Pause), (Ascii("=== CONT  "), Cont)]
  const REPORTS: seq<(seq<byte>, Action)> :=
    [(Ascii("--- PASS: "), Pass), (Ascii("--- FAIL: "), Fail),
     (Ascii("--- SKIP: "), Skip), (Ascii("--- BENCH: "), Bench)]
  const FOUR_SPACE := Ascii("    ")
  const UPDATE_LEN := 10
  const SKIP_PREFIX := Ascii("?   \t")
  const SKIP_SUFFIX := Ascii("\t[no test files]\n")
  const OPEN_PAREN := Ascii(" (")

  // --------------------------------------------------- what a line is taken for

  datatype Kind =
    | Final(pass: bool)
    | Update(action: Action, name: seq<byte>)
    | Report(action: Action, name: seq<byte>, indent: nat)
    | Plain

  // The action of the first magic prefix that s has.
  function FindMagic(magics: seq<(seq<byte>, Action)>, s: seq<byte>): Option<Action> {
    if magics == [] then None
    else if HasPrefix(s, magics[0].0) then Some(magics[0].1)
    else FindMagic(magics[1..], s)
  }

  // Indentation in steps of four spaces.
  function Indent(line: seq<byte>): nat
    decreases |line|
  {
    if HasPrefix(line, FOUR_SPACE) then 1 + Indent(line[4..]) else 0
  }

  function Dedented(line: seq<byte>): seq<byte>
    decreases |line|
  {
    if HasPrefix(line, FOUR_SPACE) then Dedented(line[4..]) else line
  }

  // name[:strings.Index(name, " (")], or all of name.
  function CutElapsed(name: seq<byte>): seq<byte> {
    if name == [] || HasPrefix(name, OPEN_PAREN) then [] else [name[0]] + CutElapsed(name[1..])
  }

  function NameFrom(env: Env, line: seq<byte>, from: nat): seq<byte> {
    env.trimSpace(if from <= |line| then line[from..] else [])
  }

  function Classify(env: Env, line: seq<byte>): Kind {
    if line == BIG_PASS || line == BIG_FAIL then Final(line == BIG_PASS)
    else
      var update := FindMagic(UPDATES, line);
      if update.Some? then Update(update.value, NameFrom(env, line, UPDATE_LEN))
      else
        var body := Dedented(line);
        var report := FindMagic(REPORTS, body);
        if report.Some? then
          Report(report.value, CutElapsed(NameFrom(env, body, (IndexOf(body, COLON) + 1) as nat)), Indent(line))
        else Plain
  }

  // ------------------------------------------------ the converter, on values

  // Everything behind the input buffer. events is what was written to w.
  datatype State = State(testName: seq<byte>, report: seq<Event>, result: Option<Action>, output: Buf,
                         events: seq<Event>) {
    predicate Ok(env: Env) {
      env.Ok() && |output.pending| < env.output.cap
    }
  }

  const START := State([], [], None, EMPTY, [])

  function WriteEvent(c: State, e: Event): State {
    c.(events := c.events + [e.(test := if e.test == [] then c.testName else e.test)])
  }

  // What writeOutputEvent makes of the calls of the output buffer.
  function OutputEvents(calls: seq<Call>, name: seq<byte>): seq<Event> {
    if calls == [] then [] else [Event(Output, name, Some(calls[0].x))] + OutputEvents(calls[1..], name)
  }

  // c.output.write
  function WriteOut(env: Env, c: State, w: seq<byte>): (d: State)
    requires c.Ok(env)
    ensures d.Ok(env)
  {
    var s := WriteTo(env.output, c.output, w);
    c.(output := s.buf, events := c.events + OutputEvents(s.calls, c.testName))
  }

  function PopReports(c: State, depth: nat): State
    decreases |c.report|
  {
    if |c.report| <= depth then c
    else
      var n := |c.report| - 1;
      PopReports(WriteEvent(c.(report := c.report[..n]), c.report[n]), depth)
  }

  // No event of the stack carries output.
  ghost predicate Silent(es: seq<Event>) {
    forall i :: 0 <= i < |es| ==> es[i].output.None?
  }

  function FlushReport(c: State, depth: nat): State {
    PopReports(c.(testName := []), depth)
  }

  lemma {:induction false} PopReportsKeeps(c: State, depth: nat)
    ensures PopReports(c, depth).output == c.output && PopReports(c, depth).testName == c.testName
    ensures PopReports(c, depth).result == c.result
    ensures PopReports(c, depth).report == if |c.report| <= depth then c.report else c.report[..depth]
    decreases |c.report|
  {
    if |c.report| > depth {
      var n := |c.report| - 1;
      PopReportsKeeps(WriteEvent(c.(report := c.report[..n]), c.report[n]), depth);
      assert |c.report[..n]| > depth ==> c.report[..n][..depth] == c.report[..depth];
    }
  }

  // The reports pushed by a report line that is not nested deeper than expected.
  function AcceptReport(c: State, action: Action, name: seq<byte>, indent: nat): (d: State)
    ensures d.output == c.output
  {
    var f := FlushReport(c, indent);
    PopReportsKeeps(c.(testName := []), indent);
    f.(testName := name, report := f.report + [Event(action, name, None)])
  }

  function NoteSkip(c: State, line: seq<byte>): State {
    if HasPrefix(line, SKIP_PREFIX) && HasSuffix(line, SKIP_SUFFIX) && |c.report| == 0
    then c.(result := Some(Skip)) else c
  }

  // An === line: a pause is announced before the line's event, the rest after.
  function ApplyUpdate(env: Env, c: State, line: seq<byte>, action: Action, name: seq<byte>): (d: State)
    requires c.Ok(env)
    ensures d.Ok(env)
  {
    PopReportsKeeps(c.(testName := []), 0);
    var f := FlushReport(c, 0).(testName := name);
    if action == Pause
    then WriteEvent(WriteOut(env, f, line), Event(action, [], None))
    else WriteOut(env, WriteEvent(f, Event(action, [], None)), line)
  }

  // A --- line; one nested deeper than expected is plain output.
  function ApplyReport(env: Env, c: State, line: seq<byte>, action: Action, name: seq<byte>, indent: nat): (d: State)
    requires c.Ok(env)
    ensures d.Ok(env)
  {
    WriteOut(env, if |c.report| < indent then c else AcceptReport(c, action, name, indent), line)
  }

  function HandleLine(env: Env, c: State, line: seq<byte>): (d: State)
    requires c.Ok(env)
    ensures d.Ok(env)
  {
    PopReportsKeeps(c.(testName := []), 0);
    match Classify(env, line)
    case Final(pass) =>
      WriteOut(env, FlushReport(c, 0), line).(result := Some(if pass then Pass else Fail))
    case Plain =>
      WriteOut(env, NoteSkip(c, line), line)
    case Report(action, name, indent) =>
      ApplyReport(env, NoteSkip(c, line), line, action, name, indent)
    case Update(action, name) =>
      ApplyUpdate(env, NoteSkip(c, line), line, action, name)
  }

  // One callback of the input buffer.
  function Handle(env: Env, c: State, call: Call): (d: State)
    requires c.Ok(env)
    ensures d.Ok(env)
  {
    match call
    case Line(x) => HandleLine(env, c, x)
    case Part(x) => WriteOut(env, c, x)
  }

  function HandleAll(env: Env, c: State, calls: seq<Call>): (d: State)
    requires c.Ok(env)
    ensures d.Ok(env)
    decreases |calls|
  {
    if calls == [] then c else HandleAll(env, Handle(env, c, calls[0]), calls[1..])
  }

  // The final event of Close, behind both flushes.
  function Finish(c: State): State {
    var s := FlushOut(c.output);
    var d := c.(output := s.buf, events := c.events + OutputEvents(s.calls, c.testName));
    WriteEvent(d, Event(if c.result.Some? then c.result.value else Fail, [], None))
  }

  // --------------------------------------------------------------- the object

  class Converter {
    const trimSpace: seq<byte> -> seq<byte>
    const input: LineBuffer
    const output: LineBuffer
    var testName: seq<byte>
    var report: seq<Event>
    var result: Option<Action>
    var events: seq<Event>

    ghost predicate Valid()
      reads this, input, output
    {
      input != output && input.b != output.b && input.Valid() && output.Valid()
    }

    ghost function E(): (env: Env)
      requires Valid()
      reads this, input, output
      ensures env.Ok()
    {
      Env(input.P(), output.P(), trimSpace)
    }

    ghost function Value(): (c: State)
      requires Valid()
      reads this, input, output, output.b
      ensures c.Ok(E())
    {
      State(testName, report, result, output.Contents(), events)
    }

    constructor (inBuffer: nat, outBuffer: nat, lower: seq<byte> -> bool, trimSpace: seq<byte> -> seq<byte>)
      requires inBuffer >= 4 && outBuffer >= 4
      ensures Valid() && fresh(input) && fresh(output) && fresh(input.b) && fresh(output.b)
      ensures E() == Env(Params(inBuffer, lower), Params(outBuffer, lower), trimSpace)
      ensures Value() == START && input.Contents() == EMPTY
    {
      this.trimSpace := trimSpace;
      input := new LineBuffer(inBuffer, lower);
      output := new LineBuffer(outBuffer, lower);
      testName, report, result, events := [], [], None, [];
    }

    method WriteOneEvent(e: Event)
      requires Valid()
      modifies this`events
      ensures Valid() && E() == old(E()) && Value() == WriteEvent(old(Value()), e)
    {
      events := events + [if e.test == [] then e.(test := testName) else e];
    }

    // The callbacks of the output buffer: writeOutputEvent for each.
    method WriteOutputEvents(calls: seq<Call>)
      modifies this`events
      ensures events == old(events) + OutputEvents(calls, testName)
    {
      var i := 0;
      ghost var left := calls;
      while i < |calls|
        invariant i <= |calls| && left == calls[i..]
        invariant events + OutputEvents(left, testName) == old(events) + OutputEvents(calls, testName)
      {
        ghost var rest := OutputEvents(left[1..], testName);
        assert left[0] == calls[i];
        ghost var e := Event(Output, testName, Some(calls[i].x));
        assert events + ([e] + rest) == (events + [e]) + rest;
        events := events + [Event(Output, testName, Some(calls[i].x))];
        left := left[1..];
        i := i + 1;
      }
    }

    method WriteToOutput(w: seq<byte>)
      requires Valid()
      modifies this`events, output, output.b
      ensures Valid() && E() == old(E()) && Value() == WriteOut(E(), old(Value()), w)
      ensures output.b == old(output.b)
    {
      var calls := output.Write(w);
      WriteOutputEvents(calls);
    }

    method FlushReports(depth: nat)
      requires Valid()
      modifies this`testName, this`report, this`events
      ensures Valid() && E() == old(E()) && Value() == FlushReport(old(Value()), depth)
    {
      testName := [];
      while |report| > depth
        invariant Valid() && E() == old(E())
        invariant PopReports(Value(), depth) == FlushReport(old(Value()), depth)
      {
        var e := report[|report| - 1];
        report := report[..|report| - 1];
        WriteOneEvent(e);
      }
    }

    method HandleInputLine(line: seq<byte>)
      requires Valid()
      modifies this, output, output.b
      ensures Valid() && E() == old(E()) && Value() == HandleLine(E(), old(Value()), line)
      ensures output.b == old(output.b)
    {
      hide WriteOut, FlushReport, Classify, ApplyUpdate, ApplyReport;
      var kind := ParseLine(E(), trimSpace, line);
      // Final PASS or FAIL.
      if kind.Final? {
        FlushReports(0);
        WriteToOutput(line);
        result := Some(if kind.pass then Pass else Fail);
        return;
      }
      // An entirely skipped test binary is plain output that sets the summary.
      if HasPrefix(line, SKIP_PREFIX) && HasSuffix(line, SKIP_SUFFIX) && |report| == 0 {
        result := Some(Skip);
      }
      match kind {
        case Plain => WriteToOutput(line);
        case Report(action, name, indent) => HandleReport(line, action, name, indent);
        case Update(action, name) => HandleUpdate(line, action, name);
      }
    }

    method HandleReport(line: seq<byte>, action: Action, name: seq<byte>, indent: nat)
      requires Valid()
      modifies this, output, output.b
      ensures Valid() && E() == old(E()) && output.b == old(output.b)
      ensures Value() == ApplyReport(E(), old(Value()), line, action, name, indent)
    {
      hide WriteTo;
      if |report| < indent {
        // Nested deeper than expected.
        WriteToOutput(line);
        return;
      }
      // Flush reports at this indentation level or deeper.
      FlushReports(indent);
      testName := name;
      report := report + [Event(action, name, None)];
      WriteToOutput(line);
    }

    method HandleUpdate(line: seq<byte>, action: Action, name: seq<byte>)
      requires Valid()
      modifies this, output, output.b
      ensures Valid() && E() == old(E()) && output.b == old(output.b)
      ensures Value() == ApplyUpdate(E(), old(Value()), line, action, name)
    {
      hide WriteTo;
      FlushReports(0);
      testName := name;
      if action == Pause {
        WriteToOutput(line);
      }
      WriteOneEvent(Event(action, [], None));
      if action != Pause {
        WriteToOutput(line);
      }
    }

    // The callbacks of the input buffer.
    method HandleCalls(calls: seq<Call>)
      requires Valid()
      modifies this, output, output.b
      ensures Valid() && E() == old(E()) && Value() == HandleAll(E(), old(Value()), calls)
      ensures output.b == old(output.b)
    {
      hide HandleLine, WriteOut;
      var i := 0;
      ghost var left := calls;
      while i < |calls|
        invariant i <= |calls| && left == calls[i..]
        invariant Valid() && E() == old(E()) && output.b == old(output.b)
        invariant HandleAll(E(), Value(), left) == HandleAll(E(), old(Value()), calls)
        decreases |calls| - i
      {
        assert left[0] == calls[i];
        match calls[i] {
          case Line(x) => HandleInputLine(x);
          case Part(x) => WriteToOutput(x);
        }
        left := left[1..];
        i := i + 1;
      }
    }

    method Write(w: seq<byte>)
      requires Valid()
      modifies this, input, input.b, output, output.b
      ensures Valid() && E() == old(E()) && input.b == old(input.b) && output.b == old(output.b)
      ensures var s := WriteTo(E().input, old(input.Contents()), w);
        input.Contents() == s.buf && Value() == HandleAll(E(), old(Value()), s.calls)
    {
      hide WriteTo, HandleAll;
      var calls := input.Write(w);
      HandleCalls(calls);
    }

    method Close()
      requires Valid()
      modifies this, input, input.b, output, output.b
      ensures Valid() && E() == old(E()) && input.b == old(input.b) && output.b == old(output.b)
      ensures var s := FlushOut(old(input.Contents()));
        input.Contents() == s.buf && Value() == Finish(HandleAll(E(), old(Value()), s.calls))
    {
      hide HandleAll, OutputEvents;
      var calls := input.Flush();
      HandleCalls(calls);
      calls := output.Flush();
      WriteOutputEvents(calls);
      WriteOneEvent(Event(if result.Some? then result.value else Fail, [], None));
    }
  }

  // What handleInputLine takes the line for.
  method ParseLine(ghost env: Env, trimSpace: seq<byte> -> seq<byte>, line: seq<byte>) returns (kind: Kind)
    requires env.trimSpace == trimSpace
    ensures kind == Classify(env, line)
  {
    hide FindMagic, CutElapsed, Indent, Dedented;
    if line == BIG_PASS || line == BIG_FAIL {
      return Final(line == BIG_PASS);
    }
    var update := MatchMagic(UPDATES, line);
    if update.Some? {
      return Update(update.value, trimSpace(if UPDATE_LEN <= |line| then line[UPDATE_LEN..] else []));
    }
    var body, indent := StripIndent(line);
    var action := MatchMagic(REPORTS, body);
    if action.None? {
      return Plain;
    }
    var i := IndexOf(body, COLON) + 1;
    return Report(action.value, CutElapsed(trimSpace(if i <= |body| then body[i..] else [])), indent);
  }

  method MatchMagic(magics: seq<(seq<byte>, Action)>, s: seq<byte>) returns (r: Option<Action>)
    ensures r == FindMagic(magics, s)
  {
    var i := 0;
    ghost var left := magics;
    while i < |magics|
      invariant i <= |magics| && left == magics[i..]
      invariant FindMagic(left, s) == FindMagic(magics, s)
    {
      assert left[0] == magics[i];
      if HasPrefix(s, magics[i].0) {
        return Some(magics[i].1);
      }
      left := left[1..];
      i := i + 1;
    }
    return None;
  }

  method StripIndent(line: seq<byte>) returns (body: seq<byte>, indent: nat)
    ensures body == Dedented(line) && indent == Indent(line)
  {
    body, indent := line, 0;
    while HasPrefix(body, FOUR_SPACE)
      invariant Dedented(body) == Dedented(line)
      invariant indent + Indent(body) == Indent(line)
      decreases |body|
    {
      body := body[4..];
      indent := indent + 1;
    }
  }
}
