// What the converter promises of every run: each byte comes out once, in order,
// under the test it belongs to, and never as half a character.
module ConverterLaws {
  import opened Bytes
  import opened Sequences
  import opened LineBuffers
  import opened LineLaws
  import opened Converter
  import opened Options
  import opened Tokenizer
  import Utf8

  // ------------------------------------------------------------- attribution

  // A byte of output and the test it is attributed to.
  type Tagged = (byte, seq<byte>)

  function Tag(x: seq<byte>, name: seq<byte>): seq<Tagged> {
    seq(|x|, i requires 0 <= i < |x| => (x[i], name))
  }

  function TagEvent(e: Event): seq<Tagged> {
    if e.output.Some? then Tag(e.output.value, e.test) else []
  }

  function TagEvents(es: seq<Event>): seq<Tagged> {
    if es == [] then [] else TagEvent(es[0]) + TagEvents(es[1..])
  }

  // The reference: which test is current, told from the lines alone. depth is
  // the number of results that are pending.
  datatype Current = Current(name: seq<byte>, depth: nat)

  function Next(env: Env, k: Current, call: Call): Current {
    if call.Part? then k
    else match Classify(env, call.x)
      case Final(_) => Current([], 0)
      case Update(_, name) => Current(name, 0)
      case Report(_, name, indent) => if k.depth < indent then k else Current(name, indent + 1)
      case Plain => k
  }

  // Every byte of a call belongs to the test that is current for the call.
  function TagCalls(env: Env, k: Current, calls: seq<Call>): seq<Tagged>
    decreases |calls|
  {
    if calls == [] then []
    else
      var n := Next(env, k, calls[0]);
      Tag(calls[0].x, n.name) + TagCalls(env, n, calls[1..])
  }

  function Tracked(c: State): Current {
    Current(c.testName, |c.report|)
  }

  // All that was emitted, then what waits in the output buffer.
  function TagState(c: State): seq<Tagged> {
    TagEvents(c.events) + Tag(c.output.pending, c.testName)
  }

  lemma TagEventsCons(e: Event, rest: seq<Event>)
    ensures TagEvents([e] + rest) == TagEvent(e) + TagEvents(rest)
  {
    assert ([e] + rest)[1..] == rest;
  }

  lemma {:induction false} TagEventsAppend(a: seq<Event>, b: seq<Event>)
    ensures TagEvents(a + b) == TagEvents(a) + TagEvents(b)
  {
    hide TagEvent;
    if a == [] {
      assert a + b == b;
    } else {
      TagEventsAppend(a[1..], b);
      TagEventsCons(a[0], a[1..] + b);
      assert a + b == [a[0]] + (a[1..] + b);
      Assoc(TagEvent(a[0]), TagEvents(a[1..]), TagEvents(b));
    }
  }

  lemma TagAppend(x: seq<byte>, y: seq<byte>, name: seq<byte>)
    ensures Tag(x + y, name) == Tag(x, name) + Tag(y, name)
  {
  }

  lemma {:induction false} TagOutputEvents(calls: seq<Call>, name: seq<byte>)
    ensures TagEvents(OutputEvents(calls, name)) == Tag(Flat(calls), name)
  {
    if calls != [] {
      TagOutputEvents(calls[1..], name);
      var e := Event(Output, name, Some(calls[0].x));
      assert ([e] + OutputEvents(calls[1..], name))[1..] == OutputEvents(calls[1..], name);
      TagAppend(calls[0].x, Flat(calls[1..]), name);
    }
  }

  lemma TagSilentEvent(c: State, e: Event)
    requires e.output.None?
    ensures TagState(WriteEvent(c, e)) == TagState(c)
  {
    hide TagEvents, Tag;
    AppendSilent(c.events, e.(test := if e.test == [] then c.testName else e.test));
  }

  lemma AppendSilent(es: seq<Event>, e: Event)
    requires e.output.None?
    ensures TagEvents(es + [e]) == TagEvents(es)
  {
    TagEventsAppend(es, [e]);
    assert [e][1..] == [];
    assert TagEvents([e]) == [] + TagEvents([]);
    assert TagEvents(es) + [] == TagEvents(es);
  }

  lemma {:induction false} PopReportsSilent(c: State, depth: nat)
    requires Silent(c.report)
    ensures TagEvents(PopReports(c, depth).events) == TagEvents(c.events)
    decreases |c.report|
  {
    if |c.report| > depth {
      var n := |c.report| - 1;
      var d := WriteEvent(c.(report := c.report[..n]), c.report[n]);
      PopReportsSilent(d, depth);
      AppendSilent(c.events, c.report[n].(test := if c.report[n].test == [] then c.testName else c.report[n].test));
    }
  }

  // The output buffer passes on what it is given under the current name.
  lemma WriteOutTags(env: Env, c: State, w: seq<byte>)
    requires c.Ok(env)
    ensures TagState(WriteOut(env, c, w)) == TagState(c) + Tag(w, c.testName)
    ensures EndsLine(w) ==> WriteOut(env, c, w).output == EMPTY
  {
    hide WriteTo, TagEvents, Tag, OutputEvents, Flat;
    var s := WriteTo(env.output, c.output, w);
    WriteConserves(env.output, c.output, w);
    WriteTrace(env.output, c.output, w);
    var es := OutputEvents(s.calls, c.testName);
    TagEventsAppend(c.events, es);
    TagOutputEvents(s.calls, c.testName);
    TagAppend(Flat(s.calls), s.buf.pending, c.testName);
    TagAppend(c.output.pending, w, c.testName);
    var t, a, b := TagEvents(c.events), Tag(Flat(s.calls), c.testName), Tag(s.buf.pending, c.testName);
    assert (t + a) + b == t + (a + b);
    var d, e := Tag(c.output.pending, c.testName), Tag(w, c.testName);
    assert (t + d) + e == t + (d + e);
  }

  // What HandleLine does before it forwards the line: the tracked state moves
  // on, nothing that was written out changes, and the buffer stays idle.
  lemma FlushTags(c: State, depth: nat)
    requires c.output == EMPTY && Silent(c.report)
    ensures var f := FlushReport(c, depth);
      && f.output == EMPTY && Silent(f.report) && f.testName == []
      && |f.report| == (if |c.report| <= depth then |c.report| else depth)
      && TagState(f) == TagState(c)
  {
    hide PopReports, TagEvents;
    PopReportsKeeps(c.(testName := []), depth);
    PopReportsSilent(c.(testName := []), depth);
    var f := FlushReport(c, depth);
    assert TagState(f) == TagEvents(f.events) + [] == TagState(c);
  }

  ghost predicate Idle(c: State) {
    c.output == EMPTY && Silent(c.report)
  }

  // Forwarding a whole line from an idle state tags exactly its bytes.
  lemma Forward(env: Env, c: State, f: State, line: seq<byte>)
    requires c.Ok(env) && f.Ok(env) && Idle(c) && Idle(f) && EndsLine(line)
    requires TagState(f) == TagState(c)
    ensures TagState(WriteOut(env, f, line)) == TagState(c) + Tag(line, f.testName)
    ensures Idle(WriteOut(env, f, line)) && Tracked(WriteOut(env, f, line)) == Tracked(f)
  {
    WriteOutTags(env, f, line);
  }

  ghost predicate Advances(env: Env, c: State, d: State, call: Call) {
    var n := Next(env, Tracked(c), call);
    Tracked(d) == n && TagState(d) == TagState(c) + Tag(call.x, n.name) && Silent(d.report)
  }

  // Each line is forwarded exactly once, under the test that it makes current.
  lemma LineAdvances(env: Env, c: State, line: seq<byte>)
    requires c.Ok(env) && Idle(c) && EndsLine(line)
    ensures Advances(env, c, HandleLine(env, c, line), Line(line)) && Idle(HandleLine(env, c, line))
  {
    hide WriteOut, PopReports, Classify, TagEvents, Tag;
    var k := NoteSkip(c, line);
    assert TagState(k) == TagState(c);
    match Classify(env, line)
    case Final(pass) =>
      FlushTags(c, 0);
      Forward(env, c, FlushReport(c, 0), line);
    case Plain =>
      Forward(env, c, k, line);
    case Report(action, name, indent) =>
      if |k.report| < indent {
        Forward(env, c, k, line);
      } else {
        FlushTags(k, indent);
        Renamed(FlushReport(k, indent), AcceptReport(k, action, name, indent));
        Forward(env, c, AcceptReport(k, action, name, indent), line);
      }
    case Update(action, name) =>
      FlushTags(k, 0);
      var f := FlushReport(k, 0).(testName := name);
      Renamed(FlushReport(k, 0), f);
      var e := Event(action, [], None);
      TagSilentEvent(f, e);
      Forward(env, c, f, line);
      Forward(env, c, WriteEvent(f, e), line);
      TagSilentEvent(WriteOut(env, f, line), e);
  }

  // While nothing waits in the buffer, renaming changes no tag.
  lemma Renamed(c: State, d: State)
    requires c.output == EMPTY && d.output == EMPTY && c.events == d.events
    ensures TagState(c) == TagState(d)
  {
  }

  // The state between callbacks: idle unless a long line is being passed on.
  ghost predicate Between(c: State, mid: bool) {
    Silent(c.report) && (!mid ==> c.output == EMPTY)
  }

  lemma HandleAdvances(env: Env, c: State, mid: bool, call: Call)
    requires c.Ok(env) && Between(c, mid) && call.x != []
    requires call.Line? ==> !mid && EndsLine(call.x)
    ensures Advances(env, c, Handle(env, c, call), call)
    ensures Between(Handle(env, c, call), call.Part? && !EndsLine(call.x))
  {
    hide WriteOut, HandleLine, TagState, Tag;
    match call
    case Line(x) => LineAdvances(env, c, x);
    case Part(x) =>
      WriteOutTags(env, c, x);
      WriteOutKeeps(env, c, x);
  }

  lemma WriteOutKeeps(env: Env, c: State, x: seq<byte>)
    requires c.Ok(env)
    ensures Tracked(WriteOut(env, c, x)) == Tracked(c) && WriteOut(env, c, x).report == c.report
  {
  }

  // Over any proper sequence of calls: whenever handleInputLine is entered the
  // output buffer is empty and not mid-line, and every byte carries the test
  // that was current for the line or fragment it came from.
  lemma {:induction false} Attribution(env: Env, c: State, mid: bool, calls: seq<Call>, after: bool)
    requires c.Ok(env) && Between(c, mid) && Trace(mid, calls, after)
    ensures TagState(HandleAll(env, c, calls)) == TagState(c) + TagCalls(env, Tracked(c), calls)
    ensures Between(HandleAll(env, c, calls), after)
    decreases |calls|
  {
    hide Handle, TagState, Tag;
    if calls != [] {
      var d := Handle(env, c, calls[0]);
      HandleAdvances(env, c, mid, calls[0]);
      Attribution(env, d, calls[0].Part? && !EndsLine(calls[0].x), calls[1..], after);
      var t, h := TagState(c), Tag(calls[0].x, Tracked(d).name);
      var r := TagCalls(env, Tracked(d), calls[1..]);
      assert (t + h) + r == t + (h + r);
    }
  }

  // --------------------------------------------------------------- whole runs

  // Everything the input buffer calls back for the writes ws and the final flush.
  function CallsOf(env: Env, ws: seq<seq<byte>>): seq<Call>
    requires env.Ok()
  {
    var s := WriteAll(env.input, EMPTY, ws);
    s.calls + FlushOut(s.buf).calls
  }

  // The state of the converter behind its input buffer after the writes ws, as
  // Converter.Write leaves it.
  function AfterWrites(env: Env, buf: Buf, c: State, ws: seq<seq<byte>>): (r: (Buf, State))
    requires c.Ok(env) && |buf.pending| < env.input.cap
    ensures r.1.Ok(env)
    decreases |ws|
  {
    if ws == [] then (buf, c)
    else
      var s := WriteTo(env.input, buf, ws[0]);
      AfterWrites(env, s.buf, HandleAll(env, c, s.calls), ws[1..])
  }

  // And after Close, as Converter.Close leaves it.
  function Events(env: Env, ws: seq<seq<byte>>): seq<Event>
    requires env.Ok()
  {
    var r := AfterWrites(env, EMPTY, START, ws);
    Finish(HandleAll(env, r.1, FlushOut(r.0).calls)).events
  }

  lemma {:induction false} HandleAllAppend(env: Env, c: State, a: seq<Call>, b: seq<Call>)
    requires c.Ok(env)
    ensures HandleAll(env, c, a + b) == HandleAll(env, HandleAll(env, c, a), b)
    decreases |a|
  {
    hide Handle;
    if a == [] {
      assert a + b == b;
    } else {
      assert (a + b)[0] == a[0] && (a + b)[1..] == a[1..] + b;
      HandleAllAppend(env, Handle(env, c, a[0]), a[1..], b);
    }
  }

  lemma {:induction false} AfterWritesIs(env: Env, buf: Buf, c: State, ws: seq<seq<byte>>)
    requires c.Ok(env) && |buf.pending| < env.input.cap
    ensures var s := WriteAll(env.input, buf, ws);
      AfterWrites(env, buf, c, ws) == (s.buf, HandleAll(env, c, s.calls))
    decreases |ws|
  {
    hide WriteTo, Handle;
    if ws != [] {
      var s := WriteTo(env.input, buf, ws[0]);
      var d := HandleAll(env, c, s.calls);
      AfterWritesIs(env, s.buf, d, ws[1..]);
      HandleAllAppend(env, c, s.calls, WriteAll(env.input, s.buf, ws[1..]).calls);
    }
  }

  // The events are a function of the callbacks.
  lemma EventsAre(env: Env, ws: seq<seq<byte>>)
    requires env.Ok()
    ensures Events(env, ws) == Finish(HandleAll(env, START, CallsOf(env, ws))).events
  {
    hide WriteAll, HandleAll, Finish, AfterWrites;
    AfterWritesIs(env, EMPTY, START, ws);
    var s := WriteAll(env.input, EMPTY, ws);
    HandleAllAppend(env, START, s.calls, FlushOut(s.buf).calls);
  }

  lemma {:induction false} WriteAllLaws(p: Params, buf: Buf, ws: seq<seq<byte>>)
    requires p.cap >= 4 && |buf.pending| < p.cap
    ensures Conserved(buf.pending + Concat(ws), WriteAll(p, buf, ws))
    ensures TraceOf(buf.mid, WriteAll(p, buf, ws))
    decreases |ws|
  {
    hide WriteTo, Trace, Flat;
    if ws == [] {
      assert buf.pending + [] == buf.pending == [] + buf.pending;
      FlatNone();
      TraceOfNone(buf.mid);
    } else {
      var r := WriteTo(p, buf, ws[0]);
      WriteConserves(p, buf, ws[0]);
      WriteTrace(p, buf, ws[0]);
      WriteAllLaws(p, r.buf, ws[1..]);
      var s := WriteAll(p, r.buf, ws[1..]);
      ConservedThen(buf.pending + ws[0], r, Concat(ws[1..]), s);
      Assoc(buf.pending, ws[0], Concat(ws[1..]));
      TraceAppend(buf.mid, r.calls, r.buf.mid, s.calls, s.buf.mid);
    }
  }

  lemma FlatNone()
    ensures Flat([]) == []
  {
  }

  // Close empties the output buffer under the current name.
  lemma FinishTags(c: State)
    ensures TagEvents(Finish(c).events) == TagState(c)
  {
    hide TagEvents;
    var s := FlushOut(c.output);
    var es := OutputEvents(s.calls, c.testName);
    TagEventsAppend(c.events, es);
    TagOutputEvents(s.calls, c.testName);
    assert Flat(s.calls) == c.output.pending by {
      if s.calls != [] {
        assert s.calls[1..] == [] && c.output.pending + [] == c.output.pending;
      }
    }
    var d := c.(output := s.buf, events := c.events + es);
    TagSilentEvent(d, Event(if c.result.Some? then c.result.value else Fail, [], None));
    assert Finish(c).output.pending == [];
    assert TagEvents(d.events) + [] == TagEvents(d.events);
    assert TagEvents(Finish(c).events) + [] == TagEvents(Finish(c).events);
  }

  lemma CallsAre(env: Env, ws: seq<seq<byte>>)
    requires env.Ok()
    ensures var s := WriteAll(env.input, EMPTY, ws); CallsOf(env, ws) == s.calls + FlushOut(s.buf).calls
  {
    hide WriteAll;
  }

  // With the final flush the calls carry the whole stream and alternate properly.
  lemma FlushLaws(s: Step, w: seq<byte>) returns (after: bool)
    requires Conserved(w, s) && TraceOf(false, s)
    ensures Flat(s.calls + FlushOut(s.buf).calls) == w
    ensures Trace(false, s.calls + FlushOut(s.buf).calls, after)
  {
    hide Trace;
    var last := FlushOut(s.buf).calls;
    FlatAppend(s.calls, last);
    if last == [] {
      assert s.calls + last == s.calls;
      after := s.buf.mid;
    } else {
      assert last[1..] == [] && s.buf.pending + [] == s.buf.pending;
      TraceOfOne(last[0], s.buf.mid);
      after := !EndsLine(last[0].x);
      TraceAppend(false, s.calls, s.buf.mid, last, after);
    }
  }

  // Every byte written is in exactly one output event, in order, and that event
  // names the test that was current for the line or fragment it came in.
  lemma EveryByteOnceUnderItsTest(env: Env, ws: seq<seq<byte>>)
    requires env.Ok()
    ensures TagEvents(Events(env, ws)) == TagCalls(env, Current([], 0), CallsOf(env, ws))
    ensures Flat(CallsOf(env, ws)) == Concat(ws)
  {
    hide CallsOf, HandleAll, TagEvents, Finish, Events, TagCalls, Trace, Flat, WriteAll;
    EventsAre(env, ws);
    WriteAllLaws(env.input, EMPTY, ws);
    var s := WriteAll(env.input, EMPTY, ws);
    assert [] + Concat(ws) == Concat(ws);
    var after := FlushLaws(s, Concat(ws));
    assert CallsOf(env, ws) == s.calls + FlushOut(s.buf).calls by {
      CallsAre(env, ws);
    }
    Attribution(env, START, false, CallsOf(env, ws), after);
    FinishTags(HandleAll(env, START, CallsOf(env, ws)));
    StartIsBlank();
    assert [] + TagCalls(env, Current([], 0), CallsOf(env, ws)) == TagCalls(env, Current([], 0), CallsOf(env, ws));
  }

  lemma StartIsBlank()
    ensures TagState(START) == []
  {
  }

  // The Output fields of all events, one after the other.
  function OutputOf(es: seq<Event>): seq<byte> {
    if es == [] then [] else (if es[0].output.Some? then es[0].output.value else []) + OutputOf(es[1..])
  }

  function Untag(ts: seq<Tagged>): seq<byte> {
    seq(|ts|, i requires 0 <= i < |ts| => ts[i].0)
  }

  lemma {:induction false} UntagEvents(es: seq<Event>)
    ensures Untag(TagEvents(es)) == OutputOf(es)
  {
    if es != [] {
      UntagEvents(es[1..]);
      UntagAppend(TagEvent(es[0]), TagEvents(es[1..]));
    }
  }

  lemma UntagAppend(a: seq<Tagged>, b: seq<Tagged>)
    ensures Untag(a + b) == Untag(a) + Untag(b)
  {
  }

  lemma {:induction false} UntagCalls(env: Env, k: Current, calls: seq<Call>)
    ensures Untag(TagCalls(env, k, calls)) == Flat(calls)
    decreases |calls|
  {
    hide Next;
    if calls != [] {
      var n := Next(env, k, calls[0]);
      UntagCalls(env, n, calls[1..]);
      UntagAppend(Tag(calls[0].x, n.name), TagCalls(env, n, calls[1..]));
      assert Untag(Tag(calls[0].x, n.name)) == calls[0].x;
    }
  }

  // The concatenation of the Output fields is the exact output of the test.
  lemma OutputIsInput(env: Env, ws: seq<seq<byte>>)
    requires env.Ok()
    ensures OutputOf(Events(env, ws)) == Concat(ws)
  {
    hide CallsOf, TagEvents, Events, TagCalls, Flat, OutputOf;
    EveryByteOnceUnderItsTest(env, ws);
    UntagEvents(Events(env, ws));
    UntagCalls(env, Current([], 0), CallsOf(env, ws));
  }

  // Without a short benchmark line the events depend on the stream alone.
  lemma EventsIgnoreCuts(env: Env, ws: seq<seq<byte>>, vs: seq<seq<byte>>)
    requires env.Ok() && Concat(ws) == Concat(vs)
    requires NoShortBenchmark(env.input, EMPTY, Concat(ws))
    ensures CallsOf(env, ws) == CallsOf(env, vs) && Events(env, ws) == Events(env, vs)
    ensures CallsOf(env, ws) ==
      var s := Feed(env.input, EMPTY, Concat(ws));
      s.calls + FlushOut(s.buf).calls
  {
    hide WriteAll, HandleAll, Finish, Events, Feed, NoShortBenchmark;
    EmptyIsSettled(env.input);
    WritesAreFeed(env.input, EMPTY, ws);
    WritesAreFeed(env.input, EMPTY, vs);
    EventsAre(env, ws);
    EventsAre(env, vs);
  }

  // ------------------------------------------------------------------- UTF-8

  ghost predicate Clean(es: seq<Event>) {
    forall i :: 0 <= i < |es| && es[i].output.Some? ==> Utf8.Valid(es[i].output.value)
  }

  ghost predicate CleanState(c: State) {
    Clean(c.events) && Silent(c.report) && Utf8.Valid(c.output.pending)
  }

  lemma {:induction false} CleanOutputEvents(calls: seq<Call>, name: seq<byte>)
    requires AllValid(calls)
    ensures Clean(OutputEvents(calls, name))
  {
    hide Utf8.Valid;
    if calls != [] {
      CleanOutputEvents(calls[1..], name);
    }
  }

  lemma CleanWriteOut(env: Env, c: State, w: seq<byte>)
    requires c.Ok(env) && CleanState(c) && Utf8.Valid(w)
    ensures CleanState(WriteOut(env, c, w))
  {
    Utf8.ValidConcat(c.output.pending, w);
    hide Utf8.Valid, WriteTo, OutputEvents;
    assert c.output.pending + w + [] == c.output.pending + w;
    WriteKeepsUtf8(env.output, c.output, w, []);
    var s := WriteTo(env.output, c.output, w);
    assert s.buf.pending + [] == s.buf.pending;
    CleanOutputEvents(s.calls, c.testName);
  }

  lemma {:induction false} CleanPopReports(c: State, depth: nat)
    requires CleanState(c)
    ensures CleanState(PopReports(c, depth))
    decreases |c.report|
  {
    hide Utf8.Valid;
    if |c.report| > depth {
      var n := |c.report| - 1;
      CleanPopReports(WriteEvent(c.(report := c.report[..n]), c.report[n]), depth);
    }
  }

  lemma {:induction false} CleanHandleAll(env: Env, c: State, calls: seq<Call>)
    requires c.Ok(env) && CleanState(c) && AllValid(calls)
    ensures CleanState(HandleAll(env, c, calls))
    decreases |calls|
  {
    hide Utf8.Valid, WriteOut, PopReports, Classify;
    if calls != [] {
      if calls[0].Part? {
        CleanWriteOut(env, c, calls[0].x);
      } else {
        var k := NoteSkip(c, calls[0].x);
        match Classify(env, calls[0].x)
        case Final(_) =>
          CleanPopReports(c.(testName := []), 0);
          PopReportsKeeps(c.(testName := []), 0);
          CleanWriteOut(env, FlushReport(c, 0), calls[0].x);
        case Plain =>
          CleanWriteOut(env, k, calls[0].x);
        case Report(action, name, indent) =>
          if |k.report| < indent {
            CleanWriteOut(env, k, calls[0].x);
          } else {
            CleanPopReports(k.(testName := []), indent);
            PopReportsKeeps(k.(testName := []), indent);
            CleanWriteOut(env, AcceptReport(k, action, name, indent), calls[0].x);
          }
        case Update(action, name) =>
          CleanPopReports(k.(testName := []), 0);
          PopReportsKeeps(k.(testName := []), 0);
          var f := FlushReport(k, 0).(testName := name);
          CleanWriteOut(env, f, calls[0].x);
          CleanWriteOut(env, WriteEvent(f, Event(action, [], None)), calls[0].x);
      }
      CleanHandleAll(env, Handle(env, c, calls[0]), calls[1..]);
    }
  }

  lemma {:induction false} WriteAllKeepsUtf8(p: Params, buf: Buf, ws: seq<seq<byte>>)
    requires p.cap >= 4 && |buf.pending| < p.cap && Utf8.Valid(buf.pending + Concat(ws))
    ensures Whole(WriteAll(p, buf, ws), [])
    decreases |ws|
  {
    hide Utf8.Valid, WriteTo;
    if ws == [] {
      assert buf.pending + Concat(ws) == buf.pending + [];
    } else {
      Assoc(buf.pending, ws[0], Concat(ws[1..]));
      WriteKeepsUtf8(p, buf, ws[0], Concat(ws[1..]));
      WriteAllKeepsUtf8(p, WriteTo(p, buf, ws[0]).buf, ws[1..]);
    }
  }

  lemma CallsOfAreValid(env: Env, ws: seq<seq<byte>>)
    requires env.Ok() && Utf8.Valid(Concat(ws))
    ensures AllValid(CallsOf(env, ws))
  {
    hide Utf8.Valid, WriteAll;
    assert [] + Concat(ws) == Concat(ws);
    WriteAllKeepsUtf8(env.input, EMPTY, ws);
    var s := WriteAll(env.input, EMPTY, ws);
    assert s.buf.pending + [] == s.buf.pending;
  }

  lemma CleanFinish(c: State)
    requires CleanState(c)
    ensures Clean(Finish(c).events)
  {
    hide Utf8.Valid, OutputEvents;
    CleanOutputEvents(FlushOut(c.output).calls, c.testName);
  }

  // Valid UTF-8 in: every slice handed to a callback of either buffer, and so
  // every output event, is valid UTF-8 by itself, however the writes cut it.
  lemma ValidInValidOut(env: Env, ws: seq<seq<byte>>)
    requires env.Ok() && Utf8.Valid(Concat(ws))
    ensures AllValid(CallsOf(env, ws)) && Clean(Events(env, ws))
  {
    assert CleanState(START);
    hide *;
    CallsOfAreValid(env, ws);
    EventsAre(env, ws);
    CleanHandleAll(env, START, CallsOf(env, ws));
    CleanFinish(HandleAll(env, START, CallsOf(env, ws)));
  }
}
