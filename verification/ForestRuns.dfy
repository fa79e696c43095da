// The results of a whole test run, across updates and final lines, as one forest.
module ForestRuns {
  import opened Bytes
  import opened Sequences
  import opened LineBuffers
  import opened Converter
  import opened TestForest
  import opened Options

  // The actions of report lines, as opposed to updates and output.
  predicate IsVerdict(a: Action) {
    a == Pass || a == Fail || a == Skip || a == Bench
  }

  predicate IsResult(e: Event) {
    e.output.None? && IsVerdict(e.action)
  }

  // The events that come from report lines.
  function Verdicts(es: seq<Event>): seq<Event> {
    if es == [] then [] else (if IsResult(es[0]) then [es[0]] else []) + Verdicts(es[1..])
  }

  lemma VerdictsCons(e: Event, rest: seq<Event>)
    ensures Verdicts([e] + rest) == (if IsResult(e) then [e] else []) + Verdicts(rest)
  {
    assert ([e] + rest)[1..] == rest;
  }

  lemma {:induction false} VerdictsAppend(a: seq<Event>, b: seq<Event>)
    ensures Verdicts(a + b) == Verdicts(a) + Verdicts(b)
    decreases |a|
  {
    if a == [] {
      assert a + b == b;
    } else {
      VerdictsAppend(a[1..], b);
      VerdictsCons(a[0], a[1..] + b);
      assert a + b == [a[0]] + (a[1..] + b);
      Assoc(if IsResult(a[0]) then [a[0]] else [], Verdicts(a[1..]), Verdicts(b));
    }
  }

  // Output events are none.
  lemma {:induction false} VerdictsOfResults(es: seq<Event>)
    ensures Verdicts(Results(es)) == Verdicts(es)
    decreases |es|
  {
    if es != [] {
      var rest := Results(es[1..]);
      VerdictsOfResults(es[1..]);
      if es[0].output.None? {
        VerdictsCons(es[0], rest);
      } else {
        assert Results(es) == [] + rest == rest;
        assert Verdicts(es) == [] + Verdicts(es[1..]) == Verdicts(es[1..]);
      }
    }
  }

  ghost predicate AllResults(es: seq<Event>) {
    forall i :: 0 <= i < |es| ==> IsResult(es[i])
  }

  lemma {:induction false} VerdictsOfStack(es: seq<Event>)
    requires AllResults(es)
    ensures Verdicts(Reverse(es)) == Reverse(es)
    decreases |es|
  {
    if es != [] {
      VerdictsOfStack(es[1..]);
      VerdictsAppend(Reverse(es[1..]), [es[0]]);
      VerdictsCons(es[0], []);
      assert [es[0]] + [] == [es[0]] && Verdicts([]) == [];
    }
  }

  // ------------------------------------------------------------- what lines do

  lemma {:induction false} MagicAction(magics: seq<(seq<byte>, Action)>, s: seq<byte>)
    requires FindMagic(magics, s).Some?
    ensures exists i :: 0 <= i < |magics| && magics[i].1 == FindMagic(magics, s).value
    decreases |magics|
  {
    if !HasPrefix(s, magics[0].0) {
      MagicAction(magics[1..], s);
      var i :| 0 <= i < |magics[1..]| && magics[1..][i].1 == FindMagic(magics[1..], s).value;
      assert magics[i + 1].1 == FindMagic(magics, s).value;
    }
  }

  lemma ActionOf(env: Env, line: seq<byte>)
    ensures var k := Classify(env, line);
      (k.Report? ==> IsVerdict(k.action)) && (k.Update? ==> !IsVerdict(k.action))
  {
    if FindMagic(UPDATES, line).Some? {
      MagicAction(UPDATES, line);
    }
    if FindMagic(REPORTS, Dedented(line)).Some? {
      MagicAction(REPORTS, Dedented(line));
    }
  }

  // The results that were written, and the stack.
  lemma ReportLine(env: Env, c: State, line: seq<byte>, e: Entry)
    requires c.Ok(env) && AllResults(c.report) && e.indent <= |c.report|
    requires var k := Classify(env, line); k.Report? && e == Entry(Event(k.action, k.name, None), k.indent)
    ensures var d := HandleLine(env, c, line);
      && d.report == c.report[..e.indent] + [e.event] && AllResults(d.report)
      && Verdicts(d.events) == Verdicts(c.events) + Reverse(c.report[e.indent..])
  {
    hide HandleLine, Classify, Results, Reverse, Verdicts;
    assert Silent(c.report);
    ActionOf(env, line);
    ReportPushes(env, c, line, e);
    var d := HandleLine(env, c, line);
    VerdictsOfResults(d.events);
    VerdictsOfResults(c.events);
    VerdictsAppend(Results(c.events), Reverse(c.report[e.indent..]));
    VerdictsOfStack(c.report[e.indent..]);
  }

  lemma OtherLine(env: Env, c: State, call: Call)
    requires c.Ok(env) && (call.Line? ==>
      var k := Classify(env, call.x);
      k.Plain? || (k.Report? && k.indent > |c.report|))
    ensures var d := Handle(env, c, call); d.report == c.report && Verdicts(d.events) == Verdicts(c.events)
  {
    hide Handle, Classify, Results, Verdicts;
    OthersKeepStack(env, c, call);
    VerdictsOfResults(Handle(env, c, call).events);
    VerdictsOfResults(c.events);
  }

  // An update or a final line writes the whole stack out.
  lemma FlushWrites(c: State)
    requires AllResults(c.report)
    ensures var f := FlushReport(c, 0);
      f.report == [] && f.output == c.output && Verdicts(f.events) == Verdicts(c.events) + Reverse(c.report)
  {
    hide Results, Reverse, Verdicts;
    PopReportsKeeps(c.(testName := []), 0);
    FlushDrains(c);
    VerdictsOfResults(FlushReport(c, 0).events);
    VerdictsOfResults(c.events);
    VerdictsAppend(Results(c.events), Reverse(c.report));
    VerdictsOfStack(c.report);
  }

  lemma WriteOutNoVerdict(env: Env, c: State, w: seq<byte>)
    requires c.Ok(env)
    ensures Verdicts(WriteOut(env, c, w).events) == Verdicts(c.events) && WriteOut(env, c, w).report == c.report
  {
    hide Verdicts, Results, WriteOut;
    ResultsOfWriteOut(env, c, w);
    VerdictsOfResults(WriteOut(env, c, w).events);
    VerdictsOfResults(c.events);
  }

  lemma UpdateNoVerdict(c: State, e: Event)
    requires !IsVerdict(e.action)
    ensures Verdicts(WriteEvent(c, e).events) == Verdicts(c.events)
  {
    hide Verdicts;
    var x := e.(test := if e.test == [] then c.testName else e.test);
    VerdictsAppend(c.events, [x]);
    VerdictsCons(x, []);
    VerdictsNone();
    assert [x] + [] == [x] && Verdicts([x]) == [];
  }

  lemma VerdictsNone()
    ensures Verdicts([]) == []
  {
  }

  // What the converter does with an update or a final line.
  lemma FlushLineIs(env: Env, c: State, line: seq<byte>)
    requires c.Ok(env) && FlushReport(c, 0).Ok(env)
    ensures var d, k := HandleLine(env, c, line), Classify(env, line);
      && (k.Final? ==> d == WriteOut(env, FlushReport(c, 0), line).(result := Some(if k.pass then Pass else Fail)))
      && (k.Update? ==> d == ApplyUpdate(env, NoteSkip(c, line), line, k.action, k.name))
  {
    hide Classify, FlushReport, WriteOut, ApplyUpdate, ApplyReport, NoteSkip;
  }

  lemma UpdateWrites(env: Env, c: State, line: seq<byte>, action: Action, name: seq<byte>)
    requires c.Ok(env) && AllResults(c.report) && !IsVerdict(action)
    ensures var d := ApplyUpdate(env, c, line, action, name);
      d.report == [] && Verdicts(d.events) == Verdicts(c.events) + Reverse(c.report)
  {
    hide FlushReport, WriteOut, Reverse, Verdicts;
    FlushWrites(c);
    FlushOk(env, c);
    var f := FlushReport(c, 0).(testName := name);
    var e := Event(action, [], None);
    UpdateNoVerdict(f, e);
    WriteOutNoVerdict(env, f, line);
    WriteOutNoVerdict(env, WriteEvent(f, e), line);
    UpdateNoVerdict(WriteOut(env, f, line), e);
  }

  lemma FlushOk(env: Env, c: State)
    requires c.Ok(env)
    ensures FlushReport(c, 0).Ok(env)
  {
    PopReportsKeeps(c.(testName := []), 0);
  }

  // --------------------------------------------------------------- whole runs

  // The accepted report lines among the calls, when depth results are pending.
  function AllEntries(env: Env, depth: nat, calls: seq<Call>): seq<Entry>
    decreases |calls|
  {
    if calls == [] then []
    else
      var k := if calls[0].Line? then Classify(env, calls[0].x) else Plain;
      match k
      case Report(action, name, indent) =>
        if indent <= depth
        then [Entry(Event(action, name, None), indent)] + AllEntries(env, indent + 1, calls[1..])
        else AllEntries(env, depth, calls[1..])
      case Plain => AllEntries(env, depth, calls[1..])
      case _ => AllEntries(env, 0, calls[1..])
  }

  // The forest g accounts for the state d: the results written since before are
  // those off the spine while the stack is the spine, or all of them once the
  // stack has been written out.
  ghost predicate Accounts(before: seq<Event>, d: State, g: seq<Tree>) {
    && AllResults(d.report)
    && ((d.report == Spine(g) && Verdicts(d.events) == before + Done(g))
        || (d.report == [] && Verdicts(d.events) == before + Post(g)))
  }

  // One call: the forest grows by the entry of an accepted report line.
  lemma CallAccounted(env: Env, before: seq<Event>, c: State, call: Call, g: seq<Tree>) returns (h: seq<Tree>)
    requires c.Ok(env) && Accounts(before, c, g)
    ensures Accounts(before, Handle(env, c, call), h)
    ensures var k := if call.Line? then Classify(env, call.x) else Plain;
      if k.Report? && k.indent <= |c.report|
      then Pre(h, 0) == Pre(g, 0) + [Entry(Event(k.action, k.name, None), k.indent)]
           && |Handle(env, c, call).report| == k.indent + 1
      else h == g && |Handle(env, c, call).report| == if k.Update? || k.Final? then 0 else |c.report|
  {
    hide Classify, Pre, Post, Spine, Done, Reverse, Verdicts, Grow, HandleLine, WriteOut, FlushReport, ApplyUpdate;
    var k := if call.Line? then Classify(env, call.x) else Plain;
    h := g;
    DoneThenSpine(g);
    if k.Report? && k.indent <= |c.report| {
      var e := Entry(Event(k.action, k.name, None), k.indent);
      ReportLine(env, c, call.x, e);
      h := Grow(g, e.event, e.indent);
      GrowPre(g, e.event, e.indent, 0);
      GrowStack(g, e.event, e.indent);
      GrownAccounts(before, c, HandleLine(env, c, call.x), g, h, e);
    } else if k.Update? || k.Final? {
      ActionOf(env, call.x);
      FlushOk(env, c);
      FlushLineIs(env, c, call.x);
      FlushWrites(c);
      WriteOutNoVerdict(env, FlushReport(c, 0), call.x);
      if k.Update? {
        UpdateWrites(env, NoteSkip(c, call.x), call.x, k.action, k.name);
      }
      ReverseNone();
      Assoc(before, Done(g), Reverse(Spine(g)));
      assert before + Post(g) + [] == before + Post(g);
    } else {
      OtherLine(env, c, call);
    }
  }

  lemma GrownAccounts(before: seq<Event>, c: State, d: State, g: seq<Tree>, h: seq<Tree>, e: Entry)
    requires Accounts(before, c, g) && e.indent <= |c.report| && e.indent <= |Spine(g)|
    requires Grown(g, h, e.event, e.indent) && Post(g) == Done(g) + Reverse(Spine(g))
    requires d.report == c.report[..e.indent] + [e.event] && AllResults(d.report)
    requires Verdicts(d.events) == Verdicts(c.events) + Reverse(c.report[e.indent..])
    ensures Accounts(before, d, h)
  {
    hide Post, Spine, Done, Reverse, Verdicts;
    ReverseNone();
    var s := Spine(g);
    if c.report == s && Verdicts(c.events) == before + Done(g) {
      Assoc(before, Done(g), Reverse(s[e.indent..]));
    } else {
      assert c.report[..0] == [] && c.report[0..] == [] && s[..0] == [] && s[0..] == s;
      assert before + Post(g) + [] == before + Post(g);
    }
  }

  lemma {:induction false} RunAccounted(env: Env, before: seq<Event>, c: State, calls: seq<Call>, g: seq<Tree>)
    returns (h: seq<Tree>)
    requires c.Ok(env) && Accounts(before, c, g)
    ensures Accounts(before, HandleAll(env, c, calls), h)
    ensures Pre(h, 0) == Pre(g, 0) + AllEntries(env, |c.report|, calls)
    decreases |calls|
  {
    hide Classify, Pre, Accounts, Handle;
    if calls == [] {
      h := g;
      assert Pre(g, 0) + [] == Pre(g, 0);
    } else {
      var m := CallAccounted(env, before, c, calls[0], g);
      var d := Handle(env, c, calls[0]);
      h := RunAccounted(env, before, d, calls[1..], m);
      var rest := AllEntries(env, |d.report|, calls[1..]);
      if m != g || Pre(m, 0) != Pre(g, 0) {
        var k := Classify(env, calls[0].x);
        Assoc(Pre(g, 0), [Entry(Event(k.action, k.name, None), k.indent)], rest);
      }
    }
  }

  // From state c, whose stack was empty, the calls led to state d: the accepted
  // report lines es are the pre-order with depths of the forest g, and the results
  // written, followed by the stack drained deepest first, are its post-order. The
  // stack is empty or the spine, entry k of it from a line of indentation k, and
  // each line gives one result.
  ghost predicate OneForest(c: State, d: State, es: seq<Entry>, g: seq<Tree>) {
    && Pre(g, 0) == es
    && (d.report == [] || d.report == Spine(g))
    && (forall k :: 0 <= k < |d.report| ==> Entry(d.report[k], k) in es)
    && Verdicts(d.events) + Reverse(d.report) == Verdicts(c.events) + Post(g)
    && multiset(Post(g)) == multiset(Labels(es))
  }

  // Over any calls, updates and final lines included, the results are the
  // post-order of one forest whose pre-order and depths are the accepted lines.
  lemma AllResultsInPostOrder(env: Env, c: State, calls: seq<Call>) returns (g: seq<Tree>)
    requires c.Ok(env) && c.report == []
    ensures OneForest(c, HandleAll(env, c, calls), AllEntries(env, 0, calls), g)
  {
    BlankForest();
    hide Pre, Post, Spine, Done, Reverse, Verdicts, HandleAll, AllEntries, OneForest;
    var before := Verdicts(c.events);
    assert before + [] == before;
    g := RunAccounted(env, before, c, calls, []);
    assert [] + AllEntries(env, 0, calls) == AllEntries(env, 0, calls);
    Account(c, HandleAll(env, c, calls), AllEntries(env, 0, calls), g);
  }

  lemma Account(c: State, d: State, es: seq<Entry>, g: seq<Tree>)
    requires Accounts(Verdicts(c.events), d, g) && Pre(g, 0) == es
    ensures OneForest(c, d, es, g)
  {
    hide Pre, Post, Spine, Done, Reverse, Verdicts, FlushReport;
    var before := Verdicts(c.events);
    OneEventPerLine(g, 0);
    DoneThenSpine(g);
    ReverseNone();
    Assoc(before, Done(g), Reverse(Spine(g)));
    assert before + Post(g) + [] == before + Post(g);
    if d.report == Spine(g) {
      forall k | 0 <= k < |d.report|
        ensures Entry(d.report[k], k) in es
      {
        SpineDepths(g, 0, k);
      }
    }
  }
}
