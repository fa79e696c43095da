// Which minutes an importer has queried, through failures and restarts.
module QueriedMinutes {
  import opened Options
  import opened TimeRanges
  import opened Importer
  import opened ImporterLaws

  // The minute lies in a range whose answer was handed to the store.
  ghost predicate Queried(asks: seq<Asking>, m: int) {
    exists i :: 0 <= i < |asks| && asks[i].answered && asks[i].range.start <= m <= asks[i].range.end
  }

  // The interval from the first minute queried to the last.
  datatype Span = Nothing | Span(lo: int, hi: int)

  function Join(a: Span, b: Span): Span {
    if a.Nothing? then b
    else if b.Nothing? then a
    else Span(if a.lo <= b.lo then a.lo else b.lo, if a.hi <= b.hi then b.hi else a.hi)
  }

  function SpanOfOne(a: Asking): Span {
    if a.answered then Span(a.range.start, a.range.end) else Nothing
  }

  function SpanOf(asks: seq<Asking>): Span {
    if asks == [] then Nothing else Join(SpanOfOne(asks[0]), SpanOf(asks[1..]))
  }

  // Nothing is missing between the first minute queried and the last.
  ghost predicate Solid(asks: seq<Asking>) {
    var s := SpanOf(asks);
    s.Span? ==>
      && Aligned(s.lo) && Aligned(s.hi) && s.lo <= s.hi
      && forall m :: Aligned(m) && s.lo <= m <= s.hi ==> Queried(asks, m)
  }

  // Neither span leaves a gap to the other.
  predicate Meet(a: Span, b: Span) {
    a.Nothing? || b.Nothing? || (b.lo <= a.hi + MINUTE && a.lo <= b.hi + MINUTE)
  }

  lemma QueriedAppend(a: seq<Asking>, b: seq<Asking>, m: int)
    ensures Queried(a + b, m) <==> Queried(a, m) || Queried(b, m)
  {
    var c := a + b;
    if Queried(a, m) {
      var i :| 0 <= i < |a| && a[i].answered && a[i].range.start <= m <= a[i].range.end;
      assert c[i] == a[i];
    }
    if Queried(b, m) {
      var i :| 0 <= i < |b| && b[i].answered && b[i].range.start <= m <= b[i].range.end;
      assert c[|a| + i] == b[i];
    }
  }

  lemma {:induction false} SpanAppend(a: seq<Asking>, b: seq<Asking>)
    ensures SpanOf(a + b) == Join(SpanOf(a), SpanOf(b))
    decreases |a|
  {
    if a == [] {
      assert a + b == b;
    } else {
      assert (a + b)[0] == a[0] && (a + b)[1..] == a[1..] + b;
      SpanAppend(a[1..], b);
    }
  }

  lemma {:induction false} QueriedInSpan(asks: seq<Asking>, m: int)
    requires Queried(asks, m)
    ensures var s := SpanOf(asks); s.Span? && s.lo <= m <= s.hi
    decreases |asks|
  {
    assert asks == [asks[0]] + asks[1..];
    QueriedAppend([asks[0]], asks[1..], m);
    if Queried(asks[1..], m) {
      QueriedInSpan(asks[1..], m);
    }
  }

  // Two stretches without a gap make one without a gap exactly if they meet.
  lemma SolidJoinIff(a: seq<Asking>, b: seq<Asking>)
    requires Solid(a) && Solid(b)
    ensures Solid(a + b) <==> Meet(SpanOf(a), SpanOf(b))
  {
    hide SpanOf, Queried, Aligned;
    SpanAppend(a, b);
    var x, y := SpanOf(a), SpanOf(b);
    if x.Span? && y.Span? && !Meet(x, y) {
      var m := if y.lo > x.hi + MINUTE then x.hi + MINUTE else y.hi + MINUTE;
      AlignedStep(x.hi);
      AlignedStep(y.hi);
      QueriedAppend(a, b, m);
      if Queried(a, m) {
        QueriedInSpan(a, m);
      }
      if Queried(b, m) {
        QueriedInSpan(b, m);
      }
      assert !Queried(a + b, m);
    } else if Meet(x, y) {
      SolidWhenMeeting(a, b);
    }
  }

  lemma SolidWhenMeeting(a: seq<Asking>, b: seq<Asking>)
    requires Solid(a) && Solid(b) && Meet(SpanOf(a), SpanOf(b))
    ensures Solid(a + b)
  {
    hide SpanOf, Queried, Aligned;
    SpanAppend(a, b);
    var x, y, z := SpanOf(a), SpanOf(b), SpanOf(a + b);
    if z.Span? {
      forall m | Aligned(m) && z.lo <= m <= z.hi
        ensures Queried(a + b, m)
      {
        QueriedAppend(a, b, m);
        if x.Span? && y.Span? {
          if x.hi < m && m < y.lo {
            AlignedGap(x.hi, m);
          } else if y.hi < m && m < x.lo {
            AlignedGap(y.hi, m);
          }
        }
      }
    }
  }

  // ----------------------------------------------------------- what one import asks

  // The answered queries d of the loop over rs are solid, start where rs starts,
  // and account for the samples that were added.
  ghost predicate Block(rs: seq<Range>, table: seq<Sample>, d: Done) {
    var s := SpanOf(d.askings);
    && Solid(d.askings) && table <= d.table
    && (s.Span? ==> rs != [] && s.lo == rs[0].start && s.lo <= s.hi)
    && (forall j :: |table| <= j < |d.table| ==> s.Span? && s.lo <= d.table[j].ts <= s.hi)
    && (d.ok ==> d.processed == rs && (rs != [] ==> s == Span(rs[0].start, rs[|rs| - 1].end)))
  }

  lemma SolidOne(a: Asking)
    requires Aligned(a.range.start) && Aligned(a.range.end) && a.range.start <= a.range.end
    ensures Solid([a]) && SpanOf([a]) == SpanOfOne(a)
  {
    assert [a][1..] == [] && [a][0] == a;
    if a.answered {
      assert forall m :: a.range.start <= m <= a.range.end ==> Queried([a], m);
    }
  }

  lemma {:induction false} RunIsBlock(rs: seq<Range>, script: seq<Outcome>, i: nat, table: seq<Sample>)
    requires AllAligned(rs) && Linked(rs)
    ensures Block(rs, table, RunRanges(rs, script, i, table))
    decreases |rs|
  {
    hide RunRanges, Added, Solid, SpanOf;
    RunStep(rs, script, i, table);
    SolidNone();
    if rs != [] {
      var o := At(script, i);
      var added := Added(rs[0], o);
      var asking := Asking(rs[0], table, added, Answered(o));
      SolidOne(asking);
      if o.Stored? {
        var rest := RunRanges(rs[1..], script, i + 1, table + added);
        RunIsBlock(rs[1..], script, i + 1, table + added);
        if SpanOf(rest.askings).Span? {
          assert SpanOf(rest.askings).lo == rs[1].start;
        }
        SolidJoinIff([asking], rest.askings);
        SpanAppend([asking], rest.askings);
        BlockCons(rs, table, added, asking, rest);
      } else if !Answered(o) {
        assert added == [] by {
          NotAnswered(rs[0], o);
        }
      }
    }
  }

  lemma NotAnswered(r: Range, o: Outcome)
    requires !Answered(o)
    ensures Added(r, o) == []
  {
  }

  lemma SolidNone()
    ensures Solid([]) && SpanOf([]) == Nothing
  {
  }

  lemma BlockCons(rs: seq<Range>, table: seq<Sample>, added: seq<Sample>, asking: Asking, rest: Done)
    requires rs != [] && AllAligned(rs) && Linked(rs) && Block(rs[1..], table + added, rest)
    requires asking.range == rs[0] && asking.answered && Solid([asking] + rest.askings)
    requires SpanOf([asking] + rest.askings) == Join(SpanOfOne(asking), SpanOf(rest.askings))
    requires forall j :: 0 <= j < |added| ==> rs[0].start <= added[j].ts <= rs[0].end
    ensures Block(rs, table, Done(rest.table, [asking] + rest.askings, [rs[0]] + rest.processed, rest.ok))
  {
    hide Solid, SpanOf;
    var s, t := SpanOf([asking] + rest.askings), SpanOf(rest.askings);
    assert [rs[0]] + rs[1..] == rs;
    if t.Span? {
      assert t.lo == rs[1].start && rs[|rs| - 1] == rs[1..][|rs| - 2];
    }
    forall j | |table| <= j < |rest.table|
      ensures s.Span? && s.lo <= rest.table[j].ts <= s.hi
    {
      if j < |table + added| {
        assert rest.table[j] == (table + added)[j] == added[j - |table|];
      }
    }
  }

  // -------------------------------------------------------------- whole importers

  // An import that starts at t would meet what has been queried.
  predicate Near(s: Span, t: int) {
    s.Span? ==> s.lo <= t <= s.hi + MINUTE
  }

  // Where the importer would take up from, by what it remembers or by its table,
  // is near what has been queried.
  ghost predicate Anchored(s: State) {
    var span := SpanOf(s.askings);
    && (s.last.Some? ==> Near(span, Trunc(s.last.value + MINUTE)))
    && (s.table != [] ==> Near(span, Trunc(LastTimestamp(s.table).value + MINUTE)))
    && (span.Nothing? && s.last.Some? ==> s.last == LastTimestamp(s.table))
  }

  // An importer with minute steps that has queried without a gap so far.
  ghost predicate GapFree(s: State) {
    Inv(s) && s.cfg.step == MINUTE && Solid(s.askings) && Anchored(s)
  }

  // What the import gets answered.
  function Asks(s: State, im: Import): seq<Asking>
    requires ImportEnds(s, im)
  {
    if s.last.None? && im.readFails then [] else RunRanges(Plan(s, im), im.script, 0, s.table).askings
  }

  // The import takes up from the last timestamp, or there is nothing to take up
  // from, or else what it gets answered meets what has been queried.
  predicate Resumes(s: State, im: Import)
    requires ImportEnds(s, im)
  {
    var past, more := SpanOf(s.askings), SpanOf(Asks(s, im));
    Known(s).Some? || past.Nothing? || more.Nothing?
    || (Trunc(StartTime(s, im.now)) <= past.hi + MINUTE && past.lo <= more.hi + MINUTE)
  }

  // What an import does to the importer, with the queries as one block.
  lemma ImportIsBlock(s: State, im: Import)
    requires Inv(s) && s.cfg.step == MINUTE && !(s.last.None? && im.readFails)
    ensures var d := RunRanges(Plan(s, im), im.script, 0, s.table);
      && Block(Plan(s, im), s.table, d)
      && (Plan(s, im) != [] ==> Plan(s, im)[0].start == Trunc(StartTime(s, im.now)) && StartTime(s, im.now) <= im.now)
      && DoImport(s, im).0.askings == s.askings + d.askings
  {
    hide RunRanges, Plan, Gapless, Ranges, Block;
    var rs := Plan(s, im);
    PlanIsGapless(s, im);
    if rs != [] {
      GaplessFacts(QueryOf(s.cfg, EndTime(s.cfg, StartTime(s, im.now), im.now), im.allowIncomplete),
                   Trunc(StartTime(s, im.now)), rs);
      PlanNotTooEarly(s, im);
    }
    RunIsBlock(rs, im.script, 0, s.table);
  }

  lemma PlanNotTooEarly(s: State, im: Import)
    requires PlanEnds(s, im) && Plan(s, im) != []
    ensures StartTime(s, im.now) <= im.now
  {
    hide Ranges;
  }

  // From a history without a gap an import, whatever becomes of it, leaves one
  // without a gap exactly if it resumes.
  lemma ImportLeavesNoGapIff(s: State, im: Import)
    requires GapFree(s)
    ensures Solid(DoImport(s, im).0.askings) <==> Resumes(s, im)
  {
    hide Solid, SpanOf, RunRanges, Plan, LastTimestamp, Inv, Trunc;
    OkEndsOf(s, im);
    if s.last.None? && im.readFails {
      SolidNone();
    } else {
      ImportIsBlock(s, im);
      SolidJoinIff(s.askings, Asks(s, im));
      var past, more := SpanOf(s.askings), SpanOf(Asks(s, im));
      if past.Span? && more.Span? && Known(s).Some? {
        assert Near(past, Trunc(StartTime(s, im.now)));
      }
    }
  }

  lemma OkEndsOf(s: State, im: Import)
    requires Inv(s)
    ensures ImportEnds(s, im) && PlanEnds(s, im)
  {
    OkEnds(s, im);
  }

  // The greatest timestamp after some samples were added.
  lemma LastTimestampGrows(table: seq<Sample>, t: seq<Sample>)
    requires table <= t && t != []
    ensures var x := LastTimestamp(t).value;
      || (table != [] && LastTimestamp(table) == Some(x))
      || exists j :: |table| <= j < |t| && t[j].ts == x
  {
    hide LastTimestamp;
    var x := LastTimestamp(t).value;
    var i :| 0 <= i < |t| && t[i].ts == x;
    if i < |table| {
      assert table[i] == t[i];
      var k :| 0 <= k < |table| && table[k].ts == LastTimestamp(table).value;
      assert t[k] == table[k];
    }
  }

  lemma NearGrows(a: Span, b: Span, t: int)
    requires a.Span? && Near(a, t)
    ensures Near(Join(a, b), t)
  {
  }

  // A time inside the span is followed by a minute near it.
  lemma NearInside(s: Span, x: int)
    requires s.Span? && Aligned(s.hi) && s.lo <= x <= s.hi
    ensures Near(s, Trunc(x + MINUTE))
  {
    TruncMonotone(x, x + MINUTE);
    TruncMonotone(x + MINUTE, s.hi + MINUTE);
    AlignedStep(s.hi);
  }

  lemma SolidEnds(asks: seq<Asking>)
    requires Solid(asks) && SpanOf(asks).Span?
    ensures var s := SpanOf(asks); Aligned(s.lo) && Aligned(s.hi) && s.lo <= s.hi
  {
  }

  lemma JoinAfter(past: Span, more: Span, x: int)
    requires more.Span? && more.lo <= x <= more.hi && Aligned(Join(past, more).hi)
    ensures Near(Join(past, more), Trunc(x + MINUTE))
  {
    NearInside(Join(past, more), x);
  }

  // The table after the import still leads back to what was queried.
  lemma TableStaysNear(s: State, im: Import)
    requires GapFree(s) && !(s.last.None? && im.readFails) && Solid(DoImport(s, im).0.askings)
    ensures var t := DoImport(s, im).0;
      t.table != [] ==> Near(SpanOf(t.askings), Trunc(LastTimestamp(t.table).value + MINUTE))
  {
    hide Solid, SpanOf, RunRanges, Plan, LastTimestamp, Inv, Trunc, Join, Near;
    OkEndsOf(s, im);
    ImportIsBlock(s, im);
    var t, d := DoImport(s, im).0, RunRanges(Plan(s, im), im.script, 0, s.table);
    var past, more := SpanOf(s.askings), SpanOf(d.askings);
    SpanAppend(s.askings, d.askings);
    if t.table != [] {
      LastTimestampGrows(s.table, t.table);
      var x := LastTimestamp(t.table).value;
      if s.table != [] && LastTimestamp(s.table) == Some(x) {
        if past.Span? {
          NearGrows(past, more, Trunc(x + MINUTE));
        } else {
          NothingBefore(past, more, Trunc(x + MINUTE));
        }
      } else {
        var j :| |s.table| <= j < |t.table| && t.table[j].ts == x;
        assert more.Span?;
        JoinSpan(past, more);
        SolidEnds(t.askings);
        JoinAfter(past, more, x);
      }
    }
  }

  lemma JoinSpan(a: Span, b: Span)
    requires b.Span?
    ensures Join(a, b).Span?
  {
  }

  lemma NothingBefore(a: Span, b: Span, t: int)
    requires a.Nothing? && (b.Span? ==> b.lo == t && b.lo <= b.hi)
    ensures Near(Join(a, b), t)
  {
  }

  // What an import remembers leads back to what was queried, too.
  lemma LastStaysNear(s: State, im: Import)
    requires GapFree(s) && !(s.last.None? && im.readFails) && Solid(DoImport(s, im).0.askings)
    ensures var t := DoImport(s, im).0; t.last.Some? ==> Near(SpanOf(t.askings), Trunc(t.last.value + MINUTE))
    ensures var t := DoImport(s, im).0;
      SpanOf(t.askings).Nothing? && t.last.Some? ==> t.last == LastTimestamp(t.table)
  {
    hide Solid, SpanOf, RunRanges, Plan, LastTimestamp, Inv, Trunc, Join, Near;
    OkEndsOf(s, im);
    ImportIsBlock(s, im);
    var t, rs := DoImport(s, im).0, Plan(s, im);
    var d := RunRanges(rs, im.script, 0, s.table);
    var past, more := SpanOf(s.askings), SpanOf(d.askings);
    SpanAppend(s.askings, d.askings);
    if d.ok && rs != [] {
      JoinSpan(past, more);
      SolidEnds(t.askings);
      JoinAfter(past, more, rs[|rs| - 1].end);
    } else if d.ok {
      assert d == Done(s.table, [], [], true) by {
        RunStep(rs, im.script, 0, s.table);
      }
      SolidNone();
      assert s.askings + [] == s.askings;
    }
  }

  // An import that resumes keeps all of it.
  lemma ResumingKeepsGapFree(s: State, im: Import)
    requires GapFree(s) && ImportEnds(s, im) && Resumes(s, im)
    ensures GapFree(DoImport(s, im).0)
  {
    hide Solid, SpanOf, Inv, Near, Resumes, Trunc, LastTimestamp, RunRanges, Plan;
    ImportLeavesNoGapIff(s, im);
    ImportKeepsInv(s, im);
    if !(s.last.None? && im.readFails) {
      TableStaysNear(s, im);
      LastStaysNear(s, im);
    }
  }

  lemma RestartKeepsGapFree(s: State)
    requires GapFree(s)
    ensures GapFree(s.(last := None))
  {
  }

  lemma ConfigureKeepsGapFree(s: State, cfg: Config)
    requires GapFree(s) && cfg.Ok() && cfg.step == MINUTE
    ensures GapFree(s.(cfg := cfg))
  {
  }

  // An importer that starts out, whatever is in its table.
  lemma NewIsGapFree(cfg: Config, table: seq<Sample>)
    requires cfg.Ok() && cfg.step == MINUTE
    ensures GapFree(State(cfg, None, table, []))
  {
  }

  // Imports never forget a query.
  lemma StaysQueried(s: State, im: Import, m: int)
    requires ImportEnds(s, im) && Queried(s.askings, m)
    ensures Queried(DoImport(s, im).0.askings, m)
  {
    hide Queried, RunRanges, Plan;
    QueriedAppend(s.askings, Asks(s, im), m);
    assert s.askings + [] == s.askings;
  }
}
