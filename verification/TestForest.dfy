// The stack of pending test results, seen as a forest of tests and subtests.
module TestForest {
  import opened Bytes
  import opened Sequences
  import opened LineBuffers
  import opened Converter
  import opened Options

  // A report line: the event it will become and its indentation.
  datatype Entry = Entry(event: Event, indent: nat)

  datatype Tree = Node(top: Event, kids: seq<Tree>)

  function Pre(f: seq<Tree>, depth: nat): seq<Entry> {
    if f == [] then [] else [Entry(f[0].top, depth)] + Pre(f[0].kids, depth + 1) + Pre(f[1..], depth)
  }

  function Post(f: seq<Tree>): seq<Event> {
    if f == [] then [] else Post(f[0].kids) + [f[0].top] + Post(f[1..])
  }

  function Reverse(s: seq<Event>): seq<Event> {
    if s == [] then [] else Reverse(s[1..]) + [s[0]]
  }

  // What the report lines do to the stack, and the events that leave it.
  datatype Stack = Stack(pending: seq<Event>, emitted: seq<Event>)

  function Push(s: Stack, e: Entry): Stack
    requires e.indent <= |s.pending|
  {
    Stack(s.pending[..e.indent] + [e.event], s.emitted + Reverse(s.pending[e.indent..]))
  }

  // No line is nested more than one deeper than the line before it.
  predicate Accepted(depth: nat, es: seq<Entry>)
    decreases |es|
  {
    es == [] || (es[0].indent <= depth && Accepted(es[0].indent + 1, es[1..]))
  }

  function PushAll(s: Stack, es: seq<Entry>): Stack
    requires Accepted(|s.pending|, es)
    decreases |es|
  {
    if es == [] then s else PushAll(Push(s, es[0]), es[1..])
  }

  // ---------------------------------------------- the forest behind the stack

  function Last(f: seq<Tree>): Tree
    requires f != []
  {
    f[|f| - 1]
  }

  // The pending results: the last tree, its last child, and so on.
  function Spine(f: seq<Tree>): seq<Event> {
    if f == [] then [] else [Last(f).top] + Spine(Last(f).kids)
  }

  // The finished results: everything that is not on the spine, in post-order.
  function Done(f: seq<Tree>): seq<Event> {
    if f == [] then [] else Post(f[..|f| - 1]) + Done(Last(f).kids)
  }

  // Hang a new leaf below the first depth entries of the spine.
  function Grow(f: seq<Tree>, e: Event, depth: nat): seq<Tree>
    requires depth <= |Spine(f)|
    decreases depth
  {
    if depth == 0 then f + [Node(e, [])]
    else f[..|f| - 1] + [Node(Last(f).top, Grow(Last(f).kids, e, depth - 1))]
  }

  lemma {:induction false} PostAppend(f: seq<Tree>, t: Tree)
    ensures Post(f + [t]) == Post(f) + (Post(t.kids) + [t.top])
    decreases |f|
  {
    if f == [] {
      assert f + [t] == [t] && [t][1..] == [];
    } else {
      PostAppend(f[1..], t);
      assert (f + [t])[0] == f[0] && (f + [t])[1..] == f[1..] + [t];
    }
  }

  lemma {:induction false} PreAppend(f: seq<Tree>, t: Tree, d: nat)
    ensures Pre(f + [t], d) == Pre(f, d) + ([Entry(t.top, d)] + Pre(t.kids, d + 1))
    decreases |f|
  {
    if f == [] {
      assert f + [t] == [t] && [t][1..] == [];
    } else {
      PreAppend(f[1..], t, d);
      assert (f + [t])[0] == f[0] && (f + [t])[1..] == f[1..] + [t];
      Assoc([Entry(f[0].top, d)] + Pre(f[0].kids, d + 1), Pre(f[1..], d), [Entry(t.top, d)] + Pre(t.kids, d + 1));
    }
  }

  // Draining the spine deepest first completes the post-order.
  lemma {:induction false} DoneThenSpine(f: seq<Tree>)
    ensures Post(f) == Done(f) + Reverse(Spine(f))
    decreases f
  {
    if f != [] {
      var t := Last(f);
      DoneThenSpine(t.kids);
      assert f == f[..|f| - 1] + [t];
      PostAppend(f[..|f| - 1], t);
      assert Spine(f)[1..] == Spine(t.kids);
    }
  }

  lemma {:induction false} GrowPre(f: seq<Tree>, e: Event, depth: nat, d: nat)
    requires depth <= |Spine(f)|
    ensures Pre(Grow(f, e, depth), d) == Pre(f, d) + [Entry(e, d + depth)]
    decreases depth
  {
    if depth == 0 {
      PreAppend(f, Node(e, []), d);
    } else {
      var t, front := Last(f), f[..|f| - 1];
      assert f == front + [t];
      GrowPre(t.kids, e, depth - 1, d + 1);
      PreAppend(front, t, d);
      PreAppend(front, Node(t.top, Grow(t.kids, e, depth - 1)), d);
      hide Pre;
      var p, q, r, x := Pre(front, d), [Entry(t.top, d)], Pre(t.kids, d + 1), [Entry(e, d + depth)];
      Assoc(q, r, x);
      Assoc(p, q + r, x);
    }
  }

  ghost predicate Grown(f: seq<Tree>, g: seq<Tree>, e: Event, depth: nat)
    requires depth <= |Spine(f)|
  {
    Spine(g) == Spine(f)[..depth] + [e] && Done(g) == Done(f) + Reverse(Spine(f)[depth..])
  }

  lemma {:induction false} GrowStack(f: seq<Tree>, e: Event, depth: nat)
    requires depth <= |Spine(f)|
    ensures Grown(f, Grow(f, e, depth), e, depth)
    decreases depth
  {
    hide Post, Done, Reverse, Grown;
    if depth == 0 {
      GrowAtTop(f, e);
    } else {
      GrowStack(Last(f).kids, e, depth - 1);
      GrowBelow(f[..|f| - 1], Last(f), Grow(Last(f).kids, e, depth - 1), e, depth);
      assert f == f[..|f| - 1] + [Last(f)];
    }
  }

  lemma GrowAtTop(f: seq<Tree>, e: Event)
    ensures Grown(f, f + [Node(e, [])], e, 0)
  {
    hide Post, Reverse;
    var g := f + [Node(e, [])];
    assert g[..|g| - 1] == f && Last(g) == Node(e, []);
    assert Spine(f)[..0] == [] && Spine(f)[0..] == Spine(f);
    DoneThenSpine(f);
    BlankForest();
    assert Done(g) == Post(f) + [] && Spine(g) == [e] + [];
  }

  lemma SpineOfLast(front: seq<Tree>, t: Tree)
    ensures Spine(front + [t]) == [t.top] + Spine(t.kids)
    ensures Done(front + [t]) == Post(front) + Done(t.kids)
  {
    hide Post;
    var f := front + [t];
    assert f[..|f| - 1] == front && Last(f) == t;
  }

  lemma GrowBelow(front: seq<Tree>, t: Tree, kids: seq<Tree>, e: Event, depth: nat)
    requires 0 < depth <= |Spine(t.kids)| + 1 && Grown(t.kids, kids, e, depth - 1)
    ensures depth <= |Spine(front + [t])|
    ensures Grown(front + [t], front + [Node(t.top, kids)], e, depth)
  {
    hide Post, Reverse, Spine, Done;
    SpineOfLast(front, t);
    SpineOfLast(front, Node(t.top, kids));
    var s, u := Spine(front + [t]), Spine(t.kids);
    assert s[..depth] == [t.top] + u[..depth - 1] && s[depth..] == u[depth - 1..];
    var p, d, r := Post(front), Done(t.kids), Reverse(u[depth - 1..]);
    assert p + (d + r) == (p + d) + r;
    assert [t.top] + (u[..depth - 1] + [e]) == s[..depth] + [e];
  }

  // For any accepted run of report lines there is a forest whose pre-order and
  // depths are the lines, whose spine is the stack, and whose post-order is what
  // was emitted followed by the stack drained deepest first.
  lemma {:induction false} ForestOf(f: seq<Tree>, es: seq<Entry>) returns (g: seq<Tree>)
    requires Accepted(|Spine(f)|, es)
    ensures Pre(g, 0) == Pre(f, 0) + es
    ensures PushAll(Stack(Spine(f), Done(f)), es) == Stack(Spine(g), Done(g))
    ensures Post(g) == Done(g) + Reverse(Spine(g))
    decreases |es|
  {
    hide Pre, Post, Spine, Done, Reverse, Grow;
    if es == [] {
      g := f;
      DoneThenSpine(f);
      assert Pre(f, 0) + es == Pre(f, 0);
    } else {
      GrowPre(f, es[0].event, es[0].indent, 0);
      GrowStack(f, es[0].event, es[0].indent);
      g := ForestOf(Grow(f, es[0].event, es[0].indent), es[1..]);
      assert Pre(f, 0) + es == Pre(f, 0) + [es[0]] + es[1..];
    }
  }

  // The entry at stack position k is that of a line of indentation k.
  lemma {:induction false} SpineDepths(f: seq<Tree>, d: nat, k: nat)
    requires k < |Spine(f)|
    ensures Entry(Spine(f)[k], d + k) in Pre(f, d)
    decreases k
  {
    var t, front := Last(f), f[..|f| - 1];
    assert f == front + [t];
    PreAppend(front, t, d);
    var own := [Entry(t.top, d)] + Pre(t.kids, d + 1);
    assert own[0] in own;
    if k > 0 {
      SpineDepths(t.kids, d + 1, k - 1);
    }
  }

  function Labels(es: seq<Entry>): seq<Event> {
    seq(|es|, i requires 0 <= i < |es| => es[i].event)
  }

  lemma LabelsAppend(a: seq<Entry>, b: seq<Entry>)
    ensures Labels(a + b) == Labels(a) + Labels(b)
  {
  }

  // Every line has exactly one event.
  lemma {:induction false} OneEventPerLine(f: seq<Tree>, d: nat)
    ensures multiset(Post(f)) == multiset(Labels(Pre(f, d)))
    decreases f
  {
    if f != [] {
      var t := f[0];
      OneEventPerLine(t.kids, d + 1);
      OneEventPerLine(f[1..], d);
      LabelsAppend([Entry(t.top, d)] + Pre(t.kids, d + 1), Pre(f[1..], d));
      LabelsAppend([Entry(t.top, d)], Pre(t.kids, d + 1));
      assert Labels([Entry(t.top, d)]) == [t.top];
    }
  }

  // -------------------------------------------- the stack inside the converter

  // The events that are not output: the updates and the results.
  function Results(es: seq<Event>): seq<Event> {
    if es == [] then [] else (if es[0].output.None? then [es[0]] else []) + Results(es[1..])
  }

  lemma ResultsCons(e: Event, rest: seq<Event>)
    ensures Results([e] + rest) == (if e.output.None? then [e] else []) + Results(rest)
  {
    assert ([e] + rest)[1..] == rest;
  }

  lemma {:induction false} ResultsAppend(a: seq<Event>, b: seq<Event>)
    ensures Results(a + b) == Results(a) + Results(b)
  {
    if a == [] {
      assert a + b == b;
    } else {
      ResultsAppend(a[1..], b);
      ResultsCons(a[0], a[1..] + b);
      assert a + b == [a[0]] + (a[1..] + b);
      Assoc(if a[0].output.None? then [a[0]] else [], Results(a[1..]), Results(b));
    }
  }

  lemma {:induction false} OutputsAreNoResults(calls: seq<Call>, name: seq<byte>)
    ensures Results(OutputEvents(calls, name)) == []
  {
    if calls != [] {
      OutputsAreNoResults(calls[1..], name);
      var e := Event(Output, name, Some(calls[0].x));
      assert ([e] + OutputEvents(calls[1..], name))[1..] == OutputEvents(calls[1..], name);
    }
  }

  lemma ResultsOfWriteOut(env: Env, c: State, w: seq<byte>)
    requires c.Ok(env)
    ensures Results(WriteOut(env, c, w).events) == Results(c.events)
    ensures WriteOut(env, c, w).report == c.report
  {
    hide WriteTo;
    var s := WriteTo(env.output, c.output, w);
    ResultsAppend(c.events, OutputEvents(s.calls, c.testName));
    OutputsAreNoResults(s.calls, c.testName);
  }

  // Popping writes the dropped entries out, deepest first and unchanged.
  lemma {:induction false} PopReportsEmits(c: State, depth: nat)
    requires c.testName == [] && Silent(c.report)
    ensures Results(PopReports(c, depth).events) ==
      Results(c.events) + (if |c.report| <= depth then [] else Reverse(c.report[depth..]))
    decreases |c.report|
  {
    hide Results, Reverse;
    var before := Results(c.events);
    if |c.report| > depth {
      var n := |c.report| - 1;
      var e, rest := c.report[n], c.report[..n];
      PopReportsEmits(WriteEvent(c.(report := rest), e), depth);
      ResultsAppend(c.events, [e]);
      ResultOfOne(e);
      var tail := if n <= depth then [] else rest[depth..];
      TailSnoc(c.report, depth, tail);
      ReverseSnoc(tail, e);
      ReverseNone();
      Assoc(before, [e], Reverse(tail));
    } else {
      assert before + [] == before;
    }
  }

  lemma TailSnoc(es: seq<Event>, depth: nat, tail: seq<Event>)
    requires depth < |es| && tail == (if |es| - 1 <= depth then [] else es[..|es| - 1][depth..])
    ensures es[depth..] == tail + [es[|es| - 1]]
  {
  }

  lemma ResultOfOne(e: Event)
    requires e.output.None?
    ensures Results([e]) == [e]
  {
    assert [e][1..] == [];
  }

  lemma {:induction false} ReverseSnoc(s: seq<Event>, e: Event)
    ensures Reverse(s + [e]) == [e] + Reverse(s)
    decreases |s|
  {
    if s == [] {
      assert s + [e] == [e] && [e][1..] == [];
    } else {
      ReverseSnoc(s[1..], e);
      assert (s + [e])[0] == s[0] && (s + [e])[1..] == s[1..] + [e];
    }
  }

  // What the results so far and the stack amount to.
  function StackOf(c: State): Stack {
    Stack(c.report, Results(c.events))
  }

  // The result lines among the calls that are not nested deeper than expected,
  // when depth results are pending.
  function EntriesOf(env: Env, depth: nat, calls: seq<Call>): seq<Entry>
    decreases |calls|
  {
    if calls == [] then []
    else
      var k := if calls[0].Line? then Classify(env, calls[0].x) else Plain;
      if k.Report? && k.indent <= depth
      then [Entry(Event(k.action, k.name, None), k.indent)] + EntriesOf(env, k.indent + 1, calls[1..])
      else EntriesOf(env, depth, calls[1..])
  }

  // No line that flushes all results: no update and no final PASS or FAIL.
  ghost predicate NoFlush(env: Env, calls: seq<Call>) {
    forall i :: 0 <= i < |calls| && calls[i].Line? ==>
      !Classify(env, calls[i].x).Update? && !Classify(env, calls[i].x).Final?
  }

  lemma ReportPushes(env: Env, c: State, line: seq<byte>, e: Entry)
    requires c.Ok(env) && Silent(c.report) && e.indent <= |c.report|
    requires var k := Classify(env, line);
      k.Report? && e == Entry(Event(k.action, k.name, None), k.indent)
    ensures var d := HandleLine(env, c, line);
      StackOf(d) == Push(StackOf(c), e) && Silent(d.report)
  {
    hide WriteOut, PopReports, Classify, Results, Reverse;
    var k := NoteSkip(c, line);
    PopReportsEmits(k.(testName := []), e.indent);
    PopReportsKeeps(k.(testName := []), e.indent);
    var f := AcceptReport(k, e.event.action, e.event.test, e.indent);
    ResultsOfWriteOut(env, f, line);
    if |c.report| == e.indent {
      assert c.report[..e.indent] == c.report && c.report[e.indent..] == [];
      assert Reverse([]) == [] by {
        ReverseNone();
      }
    }
  }

  lemma ReverseNone()
    ensures Reverse([]) == []
  {
  }

  // Everything else leaves the results and the stack alone.
  lemma OthersKeepStack(env: Env, c: State, call: Call)
    requires c.Ok(env) && (call.Line? ==>
      var k := Classify(env, call.x);
      k.Plain? || (k.Report? && k.indent > |c.report|))
    ensures StackOf(Handle(env, c, call)) == StackOf(c)
  {
    hide WriteOut, Classify, Results;
    ResultsOfWriteOut(env, if call.Line? then NoteSkip(c, call.x) else c, call.x);
  }

  lemma {:induction false} ReportsPush(env: Env, c: State, calls: seq<Call>)
    requires c.Ok(env) && Silent(c.report) && NoFlush(env, calls)
    ensures Accepted(|c.report|, EntriesOf(env, |c.report|, calls))
    ensures StackOf(HandleAll(env, c, calls)) == PushAll(StackOf(c), EntriesOf(env, |c.report|, calls))
    ensures Silent(HandleAll(env, c, calls).report)
    decreases |calls|
  {
    hide HandleLine, Classify, Results, Push, WriteOut;
    if calls != [] {
      var k := if calls[0].Line? then Classify(env, calls[0].x) else Plain;
      var d := Handle(env, c, calls[0]);
      if k.Report? && k.indent <= |c.report| {
        var e := Entry(Event(k.action, k.name, None), k.indent);
        ReportPushes(env, c, calls[0].x, e);
        PushDepth(StackOf(c), e);
        ReportsPush(env, d, calls[1..]);
        var rest := EntriesOf(env, k.indent + 1, calls[1..]);
        assert ([e] + rest)[1..] == rest;
      } else {
        OthersKeepStack(env, c, calls[0]);
        ReportsPush(env, d, calls[1..]);
      }
    }
  }

  lemma PushDepth(s: Stack, e: Entry)
    requires e.indent <= |s.pending|
    ensures |Push(s, e).pending| == e.indent + 1
  {
  }

  // Results that were emitted before stay in front.
  lemma {:induction false} PushAllAfter(s: Stack, es: seq<Entry>, before: seq<Event>)
    requires Accepted(|s.pending|, es)
    ensures PushAll(Stack(s.pending, before + s.emitted), es) ==
      Stack(PushAll(s, es).pending, before + PushAll(s, es).emitted)
    decreases |es|
  {
    hide Reverse;
    if es != [] {
      var r := Reverse(s.pending[es[0].indent..]);
      assert before + (s.emitted + r) == (before + s.emitted) + r;
      PushAllAfter(Push(s, es[0]), es[1..], before);
    }
  }

  // From state c, whose stack was empty, the result lines es led to state d:
  // they are the pre-order with depths of the forest g. The stack is its spine,
  // entry k from a line of indentation k, and once the stack is flushed the
  // results are its post-order, one event for each line.
  ghost predicate InPostOrder(c: State, d: State, es: seq<Entry>, g: seq<Tree>) {
    && Pre(g, 0) == es
    && StackOf(d) == Stack(Spine(g), Results(c.events) + Done(g))
    && (forall k :: 0 <= k < |d.report| ==> Entry(d.report[k], k) in es)
    && Results(FlushReport(d, 0).events) == Results(c.events) + Post(g)
    && multiset(Post(g)) == multiset(Labels(es))
  }

  lemma ResultsInPostOrder(env: Env, c: State, calls: seq<Call>) returns (g: seq<Tree>)
    requires c.Ok(env) && c.report == [] && NoFlush(env, calls)
    ensures InPostOrder(c, HandleAll(env, c, calls), EntriesOf(env, 0, calls), g)
  {
    BlankForest();
    hide Pre, Post, Spine, Done, Reverse, Results, PushAll, InPostOrder, HandleAll, Accepted, NoFlush, EntriesOf;
    ReportsPush(env, c, calls);
    var es := EntriesOf(env, 0, calls);
    g := ForestOf([], es);
    assert [] + es == es;
    var before := Results(c.events);
    assert before + [] == before;
    PushAllAfter(Stack([], []), es, before);
    Conclude(c, HandleAll(env, c, calls), es, g);
  }

  lemma Conclude(c: State, d: State, es: seq<Entry>, g: seq<Tree>)
    requires Pre(g, 0) == es && Post(g) == Done(g) + Reverse(Spine(g)) && Silent(d.report)
    requires StackOf(d) == Stack(Spine(g), Results(c.events) + Done(g))
    ensures InPostOrder(c, d, es, g)
  {
    hide Pre, Post, Spine, Done, Reverse, Results, FlushReport;
    OneEventPerLine(g, 0);
    forall k | 0 <= k < |d.report|
      ensures Entry(d.report[k], k) in es
    {
      SpineDepths(g, 0, k);
    }
    FlushDrains(d);
    var before := Results(c.events);
    assert before + (Done(g) + Reverse(Spine(g))) == (before + Done(g)) + Reverse(Spine(g));
  }

  lemma BlankForest()
    ensures Spine([]) == [] && Done([]) == [] && Pre([], 0) == []
  {
  }

  lemma FlushDrains(c: State)
    requires Silent(c.report)
    ensures Results(FlushReport(c, 0).events) == Results(c.events) + Reverse(c.report)
  {
    PopReportsEmits(c.(testName := []), 0);
    assert c.report[0..] == c.report;
    ReverseNone();
  }

  // Close adds the summary event and nothing else: results that are still
  // pending then are never written.
  lemma CloseDropsPending(c: State)
    ensures exists e :: Results(Finish(c).events) == Results(c.events) + [e]
                        && e.action == (if c.result.Some? then c.result.value else Fail)
  {
    hide Results;
    var s := FlushOut(c.output);
    var es := OutputEvents(s.calls, c.testName);
    var e := Event(if c.result.Some? then c.result.value else Fail, c.testName, None);
    ResultsAppend(c.events, es);
    OutputsAreNoResults(s.calls, c.testName);
    ResultsAppend(c.events + es, [e]);
    ResultOfOne(e);
    assert Results(c.events) + [] == Results(c.events);
  }
}
