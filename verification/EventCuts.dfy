// Exactly when the way the stream was cut into writes shows in the events.
module EventCuts {
  import opened Bytes
  import opened Sequences
  import opened Options
  import opened LineBuffers
  import opened LineLaws
  import opened Tokenizer
  import opened Converter
  import opened ConverterLaws

  // Lines that fit both buffers are short.
  function Both(env: Env): Params {
    env.input.(cap := if env.input.cap <= env.output.cap then env.input.cap else env.output.cap)
  }

  // ------------------------------------------------------ benchmark lines are plain

  lemma {:induction false} TrimIsPrefix(s: seq<byte>)
    ensures TrimRightSpaces(s) <= s
    decreases |s|
  {
    if s != [] && s[|s| - 1] == SPACE {
      TrimIsPrefix(s[..|s| - 1]);
    }
  }

  lemma BenchmarkStartsWithB(p: Params, x: seq<byte>)
    requires IsBenchmarkLine(p, x)
    ensures x != [] && x[0] == BENCHMARK[0]
  {
    var t := IndexOf(x, TAB);
    TrimIsPrefix(x[..t]);
    var b := TrimRightSpaces(x[..t]);
    assert b[0] == BENCHMARK[0] && b[0] == x[..t][0];
  }

  lemma WrongStart(s: seq<byte>, p: seq<byte>)
    requires s != [] && p != [] && s[0] != p[0]
    ensures !HasPrefix(s, p)
  {
  }

  lemma PlainStart(env: Env, x: seq<byte>)
    requires x != [] && x[0] == BENCHMARK[0]
    ensures Classify(env, x) == Plain && !HasPrefix(x, SKIP_PREFIX)
  {
    WrongStart(x, BIG_PASS);
    WrongStart(x, BIG_FAIL);
    WrongStart(x, SKIP_PREFIX);
    WrongStart(x, FOUR_SPACE);
    NoMagic(UPDATES, x);
    NoMagic(REPORTS, x);
  }

  lemma {:induction false} NoMagic(magics: seq<(seq<byte>, Action)>, x: seq<byte>)
    requires x != [] && forall i :: 0 <= i < |magics| ==> magics[i].0 != [] && magics[i].0[0] != x[0]
    ensures FindMagic(magics, x) == None
    decreases |magics|
  {
    if magics != [] {
      WrongStart(x, magics[0].0);
      NoMagic(magics[1..], x);
    }
  }

  // A benchmark line is only passed on.
  lemma BenchmarkIsPlain(env: Env, c: State, p: Params, x: seq<byte>)
    requires c.Ok(env) && IsBenchmarkLine(p, x)
    ensures Handle(env, c, Line(x + [NL])) == WriteOut(env, c, x + [NL])
  {
    BenchmarkStartsWithB(p, x);
    PlainStart(env, x + [NL]);
    hide WriteOut, Classify, FlushReport;
  }

  // -------------------------------------------------------- what a benchmark is

  // A name is that of a benchmark if it is Benchmark, or goes on with anything
  // that is not a lower-case letter.
  lemma BenchmarkNames(p: Params, rest: seq<byte>)
    ensures IsBenchmarkName(p, Ascii("Benchmark"))
    ensures rest != [] ==> (IsBenchmarkName(p, Ascii("Benchmark") + rest) <==> !p.lower(rest))
  {
    var b := Ascii("Benchmark");
    assert b == BENCHMARK;
    assert (BENCHMARK + rest)[|BENCHMARK|..] == rest;
  }

  lemma OtherNames(p: Params, name: seq<byte>)
    requires !(Ascii("Benchmark") <= name)
    ensures !IsBenchmarkName(p, name)
  {
    assert Ascii("Benchmark") == BENCHMARK;
  }

  ghost predicate AllSpaces(pad: seq<byte>) {
    forall i :: 0 <= i < |pad| ==> pad[i] == SPACE
  }

  lemma {:induction false} TrimsSpaces(name: seq<byte>, pad: seq<byte>)
    requires AllSpaces(pad) && (name != [] ==> name[|name| - 1] != SPACE)
    ensures TrimRightSpaces(name + pad) == name
    decreases |pad|
  {
    if pad == [] {
      assert name + pad == name;
    } else {
      var n := |pad| - 1;
      assert (name + pad)[..|name + pad| - 1] == name + pad[..n];
      TrimsSpaces(name, pad[..n]);
    }
  }

  // A line is that of a benchmark if what stands before its first tab, without
  // the spaces there, is a benchmark's name.
  lemma BenchmarkLines(p: Params, name: seq<byte>, pad: seq<byte>, rest: seq<byte>)
    requires TAB !in name && AllSpaces(pad) && (name != [] ==> name[|name| - 1] != SPACE)
    ensures IsBenchmarkLine(p, name + pad + [TAB] + rest) <==> IsBenchmarkName(p, name)
  {
    hide IsBenchmarkName;
    var head, line := name + pad, name + pad + [TAB] + rest;
    IndexIs(line, TAB, |head|);
    assert line[..|head|] == head;
    TrimsSpaces(name, pad);
  }

  lemma NoTabNoBenchmark(p: Params, line: seq<byte>)
    requires TAB !in line
    ensures !IsBenchmarkLine(p, line)
  {
  }

  // ----------------------------------------------- long benchmark lines do not show

  lemma {:induction false} OutputEventsAppend(a: seq<Call>, b: seq<Call>, name: seq<byte>)
    ensures OutputEvents(a + b, name) == OutputEvents(a, name) + OutputEvents(b, name)
    decreases |a|
  {
    if a == [] {
      assert a + b == b;
    } else {
      assert (a + b)[0] == a[0] && (a + b)[1..] == a[1..] + b;
      OutputEventsAppend(a[1..], b, name);
      Assoc([Event(Output, name, Some(a[0].x))], OutputEvents(a[1..], name), OutputEvents(b, name));
    }
  }

  lemma WriteOutTwice(env: Env, c: State, x: seq<byte>, y: seq<byte>)
    requires c.Ok(env)
    ensures var s := WriteAll(env.output, c.output, [x, y]);
      WriteOut(env, WriteOut(env, c, x), y) ==
        c.(output := s.buf, events := c.events + OutputEvents(s.calls, c.testName))
  {
    hide WriteTo, OutputEvents;
    var r := WriteTo(env.output, c.output, x);
    var t := WriteTo(env.output, r.buf, y);
    assert [x, y][1..] == [y] && [y][1..] == [];
    assert WriteAll(env.output, t.buf, []) == Step(t.buf, []);
    assert WriteAll(env.output, r.buf, [y]) == Prepend(t.calls, Step(t.buf, [])) == t by {
      assert t.calls + [] == t.calls;
    }
    OutputEventsAppend(r.calls, t.calls, c.testName);
    Assoc(c.events, OutputEvents(r.calls, c.testName), OutputEvents(t.calls, c.testName));
  }

  // A line that does not fit the output buffer comes out the same in two pieces.
  lemma LongLineTwice(env: Env, c: State, x: seq<byte>, y: seq<byte>)
    requires c.Ok(env) && c.output == EMPTY && NL !in x && NL !in y && |x| + |y| + 1 > env.output.cap
    ensures WriteOut(env, c, x + y + [NL]) == WriteOut(env, WriteOut(env, c, x), y + [NL])
  {
    hide WriteTo, WriteAll, NoShortBenchmark, Feed, OutputEvents, IsBenchmarkLine;
    var p, line := env.output, x + y + [NL];
    assert NoShortBenchmark(p, EMPTY, line) by {
      assert line == (x + y) + [NL] + [];
      FirstLineOf(p, EMPTY, x + y, []);
      NoLine(p, EMPTY, []);
    }
    EmptyIsSettled(p);
    WriteIsFeed(p, EMPTY, line);
    assert Concat([x, y + [NL]]) == line by {
      assert [x, y + [NL]][1..] == [y + [NL]] && [y + [NL]][1..] == [];
      assert Concat([y + [NL]]) == y + [NL] + [];
      Assoc(x, y, [NL]);
    }
    WritesAreFeed(p, EMPTY, [x, y + [NL]]);
    WriteOutTwice(env, c, x, y + [NL]);
  }

  // ------------------------------------------------------------ one round, both ways

  // The rounds and the tokenizer leave the same in the input buffer and make the
  // converter do the same.
  ghost predicate Same(env: Env, c: State, s: Step, t: Step)
    requires c.Ok(env)
  {
    s.buf == t.buf && HandleAll(env, c, s.calls) == HandleAll(env, c, t.calls)
  }

  lemma SameThen(env: Env, c: State, a: seq<Call>, s: Step, b: seq<Call>, t: Step)
    requires c.Ok(env) && HandleAll(env, c, a) == HandleAll(env, c, b)
    requires Same(env, HandleAll(env, c, a), s, t)
    ensures Same(env, c, Prepend(a, s), Prepend(b, t))
  {
    hide HandleAll;
    HandleAllAppend(env, c, a, s.calls);
    HandleAllAppend(env, c, b, t.calls);
  }

  lemma HandleOne(env: Env, c: State, call: Call)
    requires c.Ok(env)
    ensures HandleAll(env, c, [call]) == Handle(env, c, call)
  {
    hide Handle;
    assert [call][1..] == [];
  }

  // A line that is a benchmark line in the buffer.
  lemma BenchmarkBothWays(env: Env, c: State, buf: Buf, a: seq<byte>, b: seq<byte>, rest: seq<byte>)
    requires c.Ok(env) && c.output == EMPTY && Settled(env.input, buf) && !buf.mid
    requires NL !in a && NL !in b && NL !in buf.pending && TAB !in buf.pending && TAB !in a
    requires IsBenchmarkLine(env.input, buf.pending + a + [TAB] + b)
    requires var n := |buf.pending| + |a| + 1 + |b| + 1; env.output.cap < n && n + |rest| <= env.input.cap
    ensures var x, y := buf.pending + a + [TAB], b + [NL];
      && Round(env.input, buf, a + [TAB] + b + [NL] + rest) ==
           Prepend([Line(x + y)], Round(env.input, EMPTY, rest))
      && Feed(env.input, buf, a + [TAB] + b + [NL] + rest) ==
           Prepend([Part(x), Part(y)], Feed(env.input, EMPTY, rest))
      && HandleAll(env, c, [Line(x + y)]) == HandleAll(env, c, [Part(x), Part(y)])
  {
    hide Round, Feed, IsBenchmarkLine, HandleAll, Handle, WriteOut, Settled;
    var p, x := env.input, buf.pending + a + [TAB];
    var body := a + [TAB] + b;
    assert buf.pending + body == x + b by {
      Assoc(buf.pending, a, [TAB]);
      Assoc(buf.pending, a + [TAB], b);
    }
    Assoc(x, b, [NL]);
    RoundOfLine(p, buf, body, rest);
    BenchmarkLineGrows(p, x, b);
    FeedLine(p, buf, a, b, rest);
    BenchmarkIsPlain(env, c, p, x + b);
    LongLineTwice(env, c, x, b);
    HandleOne(env, c, Line(x + (b + [NL])));
    HandleTwoParts(env, c, x, b + [NL]);
  }

  lemma HandleTwoParts(env: Env, c: State, x: seq<byte>, y: seq<byte>)
    requires c.Ok(env)
    ensures HandleAll(env, c, [Part(x), Part(y)]) == WriteOut(env, WriteOut(env, c, x), y)
  {
    hide WriteOut, HandleAll;
    assert [Part(x), Part(y)] == [Part(x)] + [Part(y)];
    HandleAllAppend(env, c, [Part(x)], [Part(y)]);
    HandleOne(env, c, Part(x));
    HandleOne(env, WriteOut(env, c, x), Part(y));
  }

  // The tokenizer makes two parts of a benchmark line.
  lemma FeedLine(p: Params, buf: Buf, a: seq<byte>, b: seq<byte>, rest: seq<byte>)
    requires Settled(p, buf) && |buf.pending| + |a| + 1 + |b| <= p.cap && !buf.mid
    requires NL !in a && NL !in b && TAB !in buf.pending && TAB !in a
    requires IsBenchmarkLine(p, buf.pending + a + [TAB])
    ensures Feed(p, buf, a + [TAB] + b + [NL] + rest) ==
      Prepend([Part(buf.pending + a + [TAB]), Part(b + [NL])], Feed(p, EMPTY, rest))
  {
    hide Feed, IsBenchmarkLine;
    FeedBenchmark(p, buf, a, b);
    var line, end := a + [TAB] + b, [NL] + rest;
    assert a + [TAB] + b + [NL] + rest == line + end;
    FeedConcat(p, buf, line, end);
    FeedConcat(p, Buf(b, true), [NL], rest);
    FeedOne(p, Buf(b, true), NL);
    PrependTwice([Part(buf.pending + a + [TAB])], [Part(b + [NL])], Feed(p, EMPTY, rest));
    assert [Part(buf.pending + a + [TAB])] + [Part(b + [NL])] == [Part(buf.pending + a + [TAB]), Part(b + [NL])];
  }

  lemma {:induction false} RoundIsSame(env: Env, c: State, buf: Buf, chunk: seq<byte>)
    requires c.Ok(env) && Between(c, buf.mid) && Settled(env.input, buf) && env.input.lower == env.output.lower
    requires |buf.pending| + |chunk| <= env.input.cap && NoShortBenchmark(Both(env), buf, chunk)
    ensures Same(env, c, Round(env.input, buf, chunk), Feed(env.input, buf, chunk))
    decreases |chunk|
  {
    hide Round, Feed, NoShortBenchmark, IsBenchmarkLine, HandleAll, Handle, Settled;
    var p := env.input;
    if NL in chunk {
      var a, rest := SplitAt(chunk, NL);
      FirstLineOf(Both(env), buf, a, rest);
      EmptyIsSettled(p);
      BenchmarkOfBoth(env, buf.pending + a);
      if buf.mid || !IsBenchmarkLine(p, buf.pending + a) {
        var call := Finished(buf.pending + a + [NL], buf.mid);
        RoundWithLine(p, buf, a, rest);
        HandleAdvances(env, c, buf.mid, call);
        HandleOne(env, c, call);
        RoundIsSame(env, Handle(env, c, call), EMPTY, rest);
        SameThen(env, c, [call], Round(p, EMPTY, rest), [call], Feed(p, EMPTY, rest));
      } else {
        var h, t := TabInChunk(p, buf, a);
        assert buf.pending + (h + [TAB] + t) == buf.pending + h + [TAB] + t;
        BenchmarkBothWays(env, c, buf, h, t, rest);
        var call := Line(buf.pending + h + [TAB] + (t + [NL]));
        HandleAdvances(env, c, false, call);
        HandleOne(env, c, call);
        RoundIsSame(env, Handle(env, c, call), EMPTY, rest);
        SameThen(env, c, [call], Round(p, EMPTY, rest), [Part(buf.pending + h + [TAB]), Part(t + [NL])],
                 Feed(p, EMPTY, rest));
      }
    } else {
      NoLine(p, buf, chunk);
      RoundIsFeed(p, buf, chunk);
    }
  }

  lemma BenchmarkOfBoth(env: Env, x: seq<byte>)
    ensures IsBenchmarkLine(Both(env), x) == IsBenchmarkLine(env.input, x)
    ensures env.input.lower == env.output.lower ==> IsBenchmarkLine(env.output, x) == IsBenchmarkLine(env.input, x)
  {
  }

  lemma TabInChunk(p: Params, buf: Buf, a: seq<byte>) returns (h: seq<byte>, t: seq<byte>)
    requires Settled(p, buf) && !buf.mid && IsBenchmarkLine(p, buf.pending + a)
    ensures a == h + [TAB] + t && TAB !in h && TAB !in buf.pending && NL !in buf.pending
  {
    hide IsBenchmarkLine;
    BenchmarkLineGrows(p, buf.pending, a);
    BenchmarkLineGrows(p, buf.pending + a, []);
    assert TAB in buf.pending + a;
    h, t := SplitAt(a, TAB);
  }

  // ------------------------------------------------------------------ whole streams

  lemma {:induction false} WriteIsSame(env: Env, c: State, buf: Buf, w: seq<byte>)
    requires c.Ok(env) && Between(c, buf.mid) && Settled(env.input, buf) && env.input.lower == env.output.lower
    requires NoShortBenchmark(Both(env), buf, w)
    ensures Same(env, c, WriteTo(env.input, buf, w), Feed(env.input, buf, w))
    ensures Between(HandleAll(env, c, Feed(env.input, buf, w).calls), Feed(env.input, buf, w).buf.mid)
    decreases |w|
  {
    hide Round, Feed, NoShortBenchmark, HandleAll, Trace, Token;
    var p := env.input;
    if w == [] {
      FeedNothing(p, buf);
      HandleNone(env, c);
    } else {
      var m := Fits(p, buf, w);
      var chunk, rest := w[..m], w[m..];
      assert w == chunk + rest;
      QuietPrefix(Both(env), buf, chunk, rest);
      QuietAfterFeed(p, Both(env), buf, chunk, rest);
      RoundIsSame(env, c, buf, chunk);
      SettledAfterFeed(p, buf, chunk);
      var r, f := Round(p, buf, chunk), Feed(p, buf, chunk);
      RoundTrace(p, buf, chunk);
      Attribution(env, c, buf.mid, r.calls, r.buf.mid);
      var d := HandleAll(env, c, r.calls);
      WriteIsSame(env, d, f.buf, rest);
      SameThen(env, c, r.calls, WriteTo(p, r.buf, rest), f.calls, Feed(p, f.buf, rest));
      FeedConcat(p, buf, chunk, rest);
      HandleAllAppend(env, c, f.calls, Feed(p, f.buf, rest).calls);
    }
  }

  lemma FeedNothing(p: Params, buf: Buf)
    ensures Feed(p, buf, []) == Step(buf, [])
  {
  }

  lemma HandleNone(env: Env, c: State)
    requires c.Ok(env)
    ensures HandleAll(env, c, []) == c
  {
  }

  lemma {:induction false} WritesAreSame(env: Env, c: State, buf: Buf, ws: seq<seq<byte>>)
    requires c.Ok(env) && Between(c, buf.mid) && Settled(env.input, buf) && env.input.lower == env.output.lower
    requires NoShortBenchmark(Both(env), buf, Concat(ws))
    ensures Same(env, c, WriteAll(env.input, buf, ws), Feed(env.input, buf, Concat(ws)))
    decreases |ws|
  {
    hide WriteTo, Feed, NoShortBenchmark, HandleAll, Token;
    var p := env.input;
    if ws == [] {
      FeedNothing(p, buf);
    } else {
      var w, rest := ws[0], Concat(ws[1..]);
      QuietPrefix(Both(env), buf, w, rest);
      QuietAfterFeed(p, Both(env), buf, w, rest);
      WriteIsSame(env, c, buf, w);
      SettledAfterFeed(p, buf, w);
      var r, f := WriteTo(p, buf, w), Feed(p, buf, w);
      WritesAreSame(env, HandleAll(env, c, f.calls), f.buf, ws[1..]);
      SameThen(env, c, r.calls, WriteAll(p, r.buf, ws[1..]), f.calls, Feed(p, f.buf, rest));
      FeedConcat(p, buf, w, rest);
    }
  }

  // ------------------------------------------------------ short benchmark lines show

  lemma {:induction false} PopReportsGrows(c: State, depth: nat)
    ensures c.events <= PopReports(c, depth).events
    decreases |c.report|
  {
    if |c.report| > depth {
      var n := |c.report| - 1;
      PopReportsGrows(WriteEvent(c.(report := c.report[..n]), c.report[n]), depth);
    }
  }

  lemma HandleGrows(env: Env, c: State, call: Call)
    requires c.Ok(env)
    ensures c.events <= Handle(env, c, call).events
  {
    hide Classify, PopReports, WriteTo;
    PopReportsKeeps(c.(testName := []), 0);
    PopReportsGrows(c.(testName := []), 0);
    if call.Line? {
      var k := NoteSkip(c, call.x);
      PopReportsGrows(k.(testName := []), 0);
      match Classify(env, call.x)
      case Report(_, _, indent) => PopReportsGrows(k.(testName := []), indent);
      case _ =>
    }
  }

  lemma {:induction false} HandleAllGrows(env: Env, c: State, calls: seq<Call>)
    requires c.Ok(env)
    ensures c.events <= HandleAll(env, c, calls).events
    decreases |calls|
  {
    hide Handle;
    if calls != [] {
      HandleGrows(env, c, calls[0]);
      HandleAllGrows(env, Handle(env, c, calls[0]), calls[1..]);
    }
  }

  lemma FinishGrows(c: State)
    ensures c.events <= Finish(c).events
  {
  }

  // After a, which ends a line, and w, which makes the one call that makes one
  // output event of x, that event stands behind the events of a.
  lemma EventAfter(env: Env, a: seq<byte>, w: seq<byte>, rest: seq<byte>, call: Call, x: seq<byte>)
    requires env.Ok() && (a == [] || EndsLine(a)) && WriteTo(env.input, EMPTY, w).calls == [call]
    requires forall c: State :: c.Ok(env) && c.output == EMPTY ==>
      Handle(env, c, call) == WriteOut(env, c, x) && WriteTo(env.output, EMPTY, x).calls == [Finished(x, call.Part?)]
    ensures var n := |HandleAll(env, START, WriteTo(env.input, EMPTY, a).calls).events|;
      |Events(env, [a, w, rest])| > n && Events(env, [a, w, rest])[n].output == Some(x)
  {
    hide WriteTo, HandleAll, Handle, Finish, Trace, Events;
    var p := env.input;
    WriteTrace(p, EMPTY, a);
    WriteNothing(p);
    var before, r := WriteTo(p, EMPTY, a), WriteTo(p, EMPTY, w);
    var c := HandleAll(env, START, before.calls);
    Attribution(env, START, false, before.calls, before.buf.mid);
    var d := Handle(env, c, call);
    OneOutput(env, c, x, Finished(x, call.Part?));
    HandleOne(env, c, call);
    var s := WriteAll(p, r.buf, [rest]);
    var more := s.calls + FlushOut(s.buf).calls;
    assert [a, w, rest][1..] == [w, rest] && [w, rest][1..] == [rest];
    assert WriteAll(p, EMPTY, [w, rest]) == Prepend([call], s);
    assert CallsOf(env, [a, w, rest]) == before.calls + ([call] + more) by {
      Assoc(before.calls, [call] + s.calls, FlushOut(s.buf).calls);
      Assoc([call], s.calls, FlushOut(s.buf).calls);
    }
    HandleAllAppend(env, START, before.calls, [call] + more);
    HandleAllAppend(env, c, [call], more);
    EventsAre(env, [a, w, rest]);
    HandleAllGrows(env, d, more);
    FinishGrows(HandleAll(env, d, more));
  }

  lemma OneOutput(env: Env, c: State, x: seq<byte>, call: Call)
    requires c.Ok(env) && WriteTo(env.output, c.output, x).calls == [call]
    ensures WriteOut(env, c, x).events == c.events + [Event(Output, c.testName, Some(call.x))]
  {
    hide WriteTo;
    assert [call][1..] == [];
    assert OutputEvents([], c.testName) == [];
  }

  // If no benchmark line fits both buffers the events are those of the tokenizer's
  // calls, even where the calls are not.
  lemma EventsAreOf(env: Env, ws: seq<seq<byte>>, t: Step)
    requires env.Ok() && env.input.lower == env.output.lower && NoShortBenchmark(Both(env), EMPTY, Concat(ws))
    requires t == Feed(env.input, EMPTY, Concat(ws))
    ensures Events(env, ws) == Finish(HandleAll(env, START, t.calls + FlushOut(t.buf).calls)).events
  {
    hide WriteAll, Feed, NoShortBenchmark, HandleAll, Finish, Events, CallsOf;
    EmptyIsSettled(env.input);
    WritesAreSame(env, START, EMPTY, ws);
    EventsAre(env, ws);
    CallsAre(env, ws);
    var s := WriteAll(env.input, EMPTY, ws);
    HandleAllAppend(env, START, s.calls, FlushOut(s.buf).calls);
    HandleAllAppend(env, START, t.calls, FlushOut(t.buf).calls);
  }

  // The events are the same for every way to cut the stream.
  ghost predicate EventsInvisible(env: Env, s: seq<byte>)
    requires env.Ok()
  {
    forall ws, vs :: Concat(ws) == s && Concat(vs) == s ==> Events(env, ws) == Events(env, vs)
  }

  // The cuts do not show in the events for exactly the streams in which no
  // benchmark line fits both buffers.
  lemma EventsInvisibleIff(env: Env, s: seq<byte>)
    requires env.Ok() && env.input.lower == env.output.lower
    ensures EventsInvisible(env, s) <==> NoShortBenchmark(Both(env), EMPTY, s)
  {
    hide Events, NoShortBenchmark, Concat, IsBenchmarkLine, Handle, WriteTo, WriteOut, HandleAll, CallsOf, Finish,
         WriteAll, Feed;
    if NoShortBenchmark(Both(env), EMPTY, s) {
      forall ws, vs | Concat(ws) == s && Concat(vs) == s
        ensures Events(env, ws) == Events(env, vs)
      {
        EventsAreOf(env, ws, Feed(env.input, EMPTY, s));
        EventsAreOf(env, vs, Feed(env.input, EMPTY, s));
      }
    } else {
      var a, line, rest := FindShortBenchmark(Both(env), s);
      BenchmarkOfBoth(env, line);
      var h, t := SplitAtTab(env.input, line);
      var head := h + [TAB];
      BenchmarkOfBoth(env, head);
      BenchmarkLineGrows(env.input, head, t);
      WriteWholeLine(env.input, line);
      WriteWholeLine(env.output, line);
      WriteBenchmarkName(env.input, h);
      WriteBenchmarkName(env.output, h);
      var ws, vs := [a, line + [NL], rest], [a, head, t + [NL] + rest];
      ConcatThree(a, line + [NL], rest);
      ConcatThree(a, head, t + [NL] + rest);
      assert a + (line + [NL]) + rest == a + (line + [NL] + rest);
      assert a + head + (t + [NL] + rest) == a + (head + t + [NL] + rest);
      forall c: State | c.Ok(env) && c.output == EMPTY
        ensures Handle(env, c, Line(line + [NL])) == WriteOut(env, c, line + [NL])
        ensures Handle(env, c, Part(head)) == WriteOut(env, c, head)
      {
        BenchmarkIsPlain(env, c, env.input, line);
        PartIsWritten(env, c, head);
      }
      EventAfter(env, a, line + [NL], rest, Line(line + [NL]), line + [NL]);
      EventAfter(env, a, head, t + [NL] + rest, Part(head), head);
    }
  }

  lemma PartIsWritten(env: Env, c: State, x: seq<byte>)
    requires c.Ok(env)
    ensures Handle(env, c, Part(x)) == WriteOut(env, c, x)
  {
  }
}
