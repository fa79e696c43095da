// Safety of the importer over whole runs.
module ImporterLaws {
  import opened TimeRanges
  import opened Importer
  import opened Options

  // What can happen to an importer: an import, whatever becomes of it, a new
  // configuration, or a restart of the process.
  datatype Event = Imported(im: Import) | Configured(cfg: Config) | Restarted

  ghost predicate AllOk(evs: seq<Event>) {
    forall i :: 0 <= i < |evs| && evs[i].Configured? ==> evs[i].cfg.Ok()
  }

  function Apply(s: State, ev: Event): (t: State)
    requires s.cfg.Ok() && (ev.Configured? ==> ev.cfg.Ok())
    ensures t.cfg.Ok()
  {
    match ev
    case Imported(im) =>
      OkEnds(s, im);
      DoImport(s, im).0
    case Configured(cfg) => s.(cfg := cfg)
    case Restarted => s.(last := None)
  }

  function Run(s: State, evs: seq<Event>): (t: State)
    requires s.cfg.Ok() && AllOk(evs)
    ensures t.cfg.Ok()
    decreases |evs|
  {
    if evs == [] then s else Run(Apply(s, evs[0]), evs[1..])
  }

  // ------------------------------------------------------ nothing stored twice

  ghost predicate Below(table: seq<Sample>, t: int) {
    forall i :: 0 <= i < |table| ==> table[i].ts <= t
  }

  ghost predicate Before(table: seq<Sample>, t: int) {
    forall i :: 0 <= i < |table| ==> table[i].ts < t
  }

  // The query asked only for times later than anything in the table.
  ghost predicate Fresh(a: Asking) {
    Before(a.before, a.range.start)
    && forall i :: 0 <= i < |a.added| ==> a.range.start <= a.added[i].ts <= a.range.end
  }

  ghost predicate AllFresh(asks: seq<Asking>) {
    forall i :: 0 <= i < |asks| ==> Fresh(asks[i])
  }

  // The queries account for everything that happened to the table.
  ghost predicate Chained(base: seq<Sample>, asks: seq<Asking>, table: seq<Sample>)
    decreases |asks|
  {
    if asks == [] then table == base
    else asks[0].before == base && Chained(base + asks[0].added, asks[1..], table)
  }

  lemma {:induction false} ChainedAppend(base: seq<Sample>, a: seq<Asking>, mid: seq<Sample>, b: seq<Asking>,
                                         table: seq<Sample>)
    requires Chained(base, a, mid) && Chained(mid, b, table)
    ensures Chained(base, a + b, table)
    decreases |a|
  {
    if a == [] {
      assert a + b == b;
    } else {
      assert (a + b)[0] == a[0] && (a + b)[1..] == a[1..] + b;
      ChainedAppend(base + a[0].added, a[1..], mid, b, table);
    }
  }

  // The loop over ascending ranges: every query is fresh, and x bounds the table
  // afterwards if it bounds the table and all ranges.
  lemma {:induction false} RunRangesFresh(rs: seq<Range>, script: seq<Outcome>, i: nat, table: seq<Sample>, x: int)
    requires Ascending(rs) && (forall k :: 0 <= k < |rs| ==> Before(table, rs[k].start) && rs[k].end <= x)
    requires Below(table, x)
    ensures var d := RunRanges(rs, script, i, table);
      && AllFresh(d.askings) && Chained(table, d.askings, d.table) && Below(d.table, x)
      && (d.ok ==> d.processed == rs)
    decreases |rs|
  {
    hide Added, RunRanges;
    RunStep(rs, script, i, table);
    if rs != [] {
      var o := At(script, i);
      var added := Added(rs[0], o);
      assert Fresh(Asking(rs[0], table, added, Answered(o)));
      if o.Stored? {
        RunRangesFresh(rs[1..], script, i + 1, table + added, x);
      } else if o.Cancelled? {
        AddedNothing(rs[0]);
        assert table + [] == table;
      }
    }
  }

  ghost predicate Inv(s: State) {
    s.cfg.Ok() && (s.last.Some? ==> Below(s.table, s.last.value))
  }

  // The cap on the query range: zero means none, otherwise an import never spans
  // more, and nothing else shortens it.
  lemma QueryRangeCap(cfg: Config, start: int, now: int)
    requires cfg.maxQueryRange >= 0 && start <= now
    ensures var end := EndTime(cfg, start, now);
      && start <= end <= now
      && (cfg.maxQueryRange > 0 ==> end - start <= cfg.maxQueryRange)
      && (end < now ==> end - start == cfg.maxQueryRange > 0)
  {
  }

  // Where an import starts and ends.
  lemma PlanBounds(s: State, im: Import)
    requires Inv(s) && StartTime(s, im.now) <= im.now
    ensures var start := StartTime(s, im.now);
      Before(s.table, Trunc(start)) && Trunc(start) <= Trunc(EndTime(s.cfg, start, im.now))
  {
    var start := StartTime(s, im.now);
    if Known(s).Some? {
      TruncMonotone(Known(s).value, start);
    }
    TruncMonotone(start, EndTime(s.cfg, start, im.now));
  }

  lemma PlanAscends(s: State, im: Import)
    requires Inv(s)
    ensures var rs := Plan(s, im);
      && Ascending(rs)
      && (forall k :: 0 <= k < |rs| ==> Before(s.table, rs[k].start) && rs[k].end <= rs[|rs| - 1].end)
      && (rs != [] ==> Below(s.table, rs[|rs| - 1].end))
  {
    hide Ranges, Trunc;
    var start := StartTime(s, im.now);
    if start <= im.now {
      PlanBounds(s, im);
      var q := QueryOf(s.cfg, EndTime(s.cfg, start, im.now), im.allowIncomplete);
      RangesAscend(q, Trunc(start), 0);
      var rs := Plan(s, im);
      if rs != [] {
        assert rs[0].start <= rs[0].end <= rs[|rs| - 1].end;
      }
    }
  }

  lemma ImportKeepsInv(s: State, im: Import)
    requires Inv(s)
    ensures var t := DoImport(s, im).0;
      && Inv(t) && s.askings <= t.askings
      && AllFresh(t.askings[|s.askings|..]) && Chained(s.table, t.askings[|s.askings|..], t.table)
  {
    hide RunRanges, Plan, Fresh;
    if s.last.Some? || !im.readFails {
      var rs := Plan(s, im);
      PlanAscends(s, im);
      var d := RunRanges(rs, im.script, 0, s.table);
      if rs == [] {
        assert d == Done(s.table, [], [], true) by {
          RunNothing(im.script, s.table);
        }
      } else {
        RunRangesFresh(rs, im.script, 0, s.table, rs[|rs| - 1].end);
      }
      assert (s.askings + d.askings)[|s.askings|..] == d.askings;
    }
  }

  // Over every run: each query asks only for times later than anything the table
  // holds at that moment, and the table is what the queries added to it.
  lemma {:induction false} EveryQueryIsFresh(s: State, evs: seq<Event>)
    requires Inv(s) && AllOk(evs)
    ensures var t := Run(s, evs);
      && Inv(t) && s.askings <= t.askings
      && AllFresh(t.askings[|s.askings|..]) && Chained(s.table, t.askings[|s.askings|..], t.table)
    decreases |evs|
  {
    hide Fresh, DoImport;
    if evs == [] {
      assert s.askings[|s.askings|..] == [];
    } else {
      var m := Apply(s, evs[0]);
      if evs[0].Imported? {
        ImportKeepsInv(s, evs[0].im);
      } else {
        assert m.askings[|s.askings|..] == [];
      }
      EveryQueryIsFresh(m, evs[1..]);
      var t := Run(m, evs[1..]);
      var a, b := m.askings[|s.askings|..], t.askings[|m.askings|..];
      assert t.askings[|s.askings|..] == a + b;
      ChainedAppend(s.table, a, m.table, b, t.table);
    }
  }

  lemma FirstRangeStart(q: Query, s: int)
    requires Ends(q, s) && Aligned(s) && Ranges(q, s, 0) != []
    ensures Ranges(q, s, 0)[0].start == s
  {
  }

  // A step of at least a minute is exactly what this takes: after a sample on a
  // whole minute, the next import starts later than it if and only if the step
  // is a minute or more.
  lemma FreshIffMinuteStep(s: State, im: Import, t: int)
    requires PlanEnds(s, im) && s.cfg.step >= 0 && Known(s) == Some(t) && Aligned(t)
    requires Below(s.table, t) && Plan(s, im) != []
    requires exists i :: 0 <= i < |s.table| && s.table[i].ts == t
    ensures Before(s.table, Plan(s, im)[0].start) <==> s.cfg.step >= MINUTE
  {
    var start := t + s.cfg.step;
    hide Ranges;
    FirstRangeStart(QueryOf(s.cfg, EndTime(s.cfg, start, im.now), im.allowIncomplete), Trunc(start));
    TruncMonotone(t, start);
    if s.cfg.step < MINUTE {
      TruncUnique(start, t);
    }
  }

  ghost predicate NoDuplicates(table: seq<Sample>) {
    forall i, j :: 0 <= i < j < |table| ==> table[i] != table[j]
  }

  lemma {:induction false} FreshKeepsDistinct(base: seq<Sample>, asks: seq<Asking>, table: seq<Sample>)
    requires Chained(base, asks, table) && AllFresh(asks) && NoDuplicates(base)
    requires forall i :: 0 <= i < |asks| ==> NoDuplicates(asks[i].added)
    ensures NoDuplicates(table)
    decreases |asks|
  {
    if asks != [] {
      assert Fresh(asks[0]);
      assert NoDuplicates(base + asks[0].added);
      FreshKeepsDistinct(base + asks[0].added, asks[1..], table);
    }
  }

  // A sample is never stored twice, if no single answer holds it twice.
  lemma NothingStoredTwice(cfg: Config, table: seq<Sample>, evs: seq<Event>)
    requires cfg.Ok() && AllOk(evs) && NoDuplicates(table)
    requires var t := Run(State(cfg, None, table, []), evs);
      forall i :: 0 <= i < |t.askings| ==> NoDuplicates(t.askings[i].added)
    ensures NoDuplicates(Run(State(cfg, None, table, []), evs).table)
  {
    var s := State(cfg, None, table, []);
    EveryQueryIsFresh(s, evs);
    var t := Run(s, evs);
    assert t.askings[0..] == t.askings;
    FreshKeepsDistinct(table, t.askings, t.table);
  }

  // -------------------------------------------------- every minute exactly once

  function RangesOf(asks: seq<Asking>): (rs: seq<Range>)
    ensures |rs| == |asks|
  {
    seq(|asks|, i requires 0 <= i < |asks| => asks[i].range)
  }

  lemma RangesOfAppend(a: seq<Asking>, b: seq<Asking>)
    ensures RangesOf(a + b) == RangesOf(a) + RangesOf(b)
  {
  }

  // The first round of the loop over the ranges.
  lemma RunStep(rs: seq<Range>, script: seq<Outcome>, i: nat, table: seq<Sample>)
    ensures var d := RunRanges(rs, script, i, table);
      if rs == [] then d == Done(table, [], [], true)
      else
        var o := At(script, i);
        var added := Added(rs[0], o);
        var asking := Asking(rs[0], table, added, Answered(o));
        if o.Stored? then
          var rest := RunRanges(rs[1..], script, i + 1, table + added);
          d == Done(rest.table, [asking] + rest.askings, [rs[0]] + rest.processed, rest.ok)
        else d == Done(table + added, if o.Cancelled? then [] else [asking], [], false)
  {
  }

  lemma {:induction false} SuccessAsksAll(rs: seq<Range>, script: seq<Outcome>, i: nat, table: seq<Sample>)
    ensures var d := RunRanges(rs, script, i, table);
      d.ok ==> d.processed == rs && RangesOf(d.askings) == rs
    decreases |rs|
  {
    hide RunRanges, Added;
    RunStep(rs, script, i, table);
    if rs != [] && At(script, i).Stored? {
      var added := Added(rs[0], At(script, i));
      SuccessAsksAll(rs[1..], script, i + 1, table + added);
      RangesOfAppend([Asking(rs[0], table, added, true)], RunRanges(rs[1..], script, i + 1, table + added).askings);
    }
  }

  // Imports that succeed, with minute steps throughout.
  ghost predicate Smooth(s: State, evs: seq<Event>)
    decreases |evs|
  {
    s.cfg.Ok() && s.cfg.step == MINUTE
    && (evs == []
        || (!evs[0].Restarted? && (evs[0].Configured? ==> evs[0].cfg.Ok() && evs[0].cfg.step == MINUTE)
            && (evs[0].Imported? ==> DoImport(s, evs[0].im).2)
            && Smooth(Apply(s, evs[0]), evs[1..])))
  }

  // All minutes from the first one asked for to lastTimestamp, each once.
  ghost predicate Covered(s: State) {
    var rs := RangesOf(s.askings);
    rs != [] ==>
      && s.last == Some(rs[|rs| - 1].end) && AllAligned(rs) && rs[0].start <= rs[|rs| - 1].end
      && Asked(rs) == Minutes(rs[0].start, rs[|rs| - 1].end)
  }

  // A smooth import continues exactly one minute after the last one.
  lemma PlanIsGapless(s: State, im: Import)
    requires Inv(s) && s.cfg.step == MINUTE
    ensures var rs := Plan(s, im);
      rs != [] ==>
        var start := Trunc(StartTime(s, im.now));
        var q := QueryOf(s.cfg, EndTime(s.cfg, StartTime(s, im.now), im.now), im.allowIncomplete);
        Gapless(q, start, rs) && (s.last.Some? && Aligned(s.last.value) ==> start == s.last.value + MINUTE)
  {
    hide Ranges, Trunc, Gapless;
    var start := StartTime(s, im.now);
    if start <= im.now {
      PlanBounds(s, im);
      MinuteStepsCover(QueryOf(s.cfg, EndTime(s.cfg, start, im.now), im.allowIncomplete), Trunc(start), 0);
      if s.last.Some? && Aligned(s.last.value) {
        AlignedStep(s.last.value);
      }
    }
  }

  lemma CoveredJoin(past: seq<Range>, next: seq<Range>, q: Query)
    requires past != [] && next != [] && AllAligned(past) && past[0].start <= past[|past| - 1].end
    requires Asked(past) == Minutes(past[0].start, past[|past| - 1].end)
    requires Gapless(q, past[|past| - 1].end + MINUTE, next)
    ensures var rs := past + next;
      && AllAligned(rs) && rs[0].start <= rs[|rs| - 1].end
      && Asked(rs) == Minutes(rs[0].start, rs[|rs| - 1].end)
  {
    hide Minutes, Asked;
    AskedAppend(past, next);
    MinutesJoin(past[0].start, past[|past| - 1].end, next[|next| - 1].end);
  }

  lemma ImportKeepsCovered(s: State, im: Import)
    requires Inv(s) && Covered(s) && s.cfg.step == MINUTE && DoImport(s, im).2
    ensures Covered(DoImport(s, im).0)
  {
    hide RunRanges, Plan, Minutes, Asked, Gapless, Ranges, LastTimestamp;
    var rs := Plan(s, im);
    var d := RunRanges(rs, im.script, 0, s.table);
    SuccessAsksAll(rs, im.script, 0, s.table);
    RangesOfAppend(s.askings, d.askings);
    var past := RangesOf(s.askings);
    if rs == [] {
      assert past + rs == past;
    } else {
      PlanIsGapless(s, im);
      var q := QueryOf(s.cfg, EndTime(s.cfg, StartTime(s, im.now), im.now), im.allowIncomplete);
      if past == [] {
        assert past + rs == rs;
        GaplessFacts(q, Trunc(StartTime(s, im.now)), rs);
      } else {
        CoveredJoin(past, rs, q);
      }
    }
  }

  lemma GaplessFacts(q: Query, s: int, rs: seq<Range>)
    requires Gapless(q, s, rs) && rs != []
    ensures AllAligned(rs) && Linked(rs) && rs[0].start == s && s <= rs[|rs| - 1].end
    ensures Asked(rs) == Minutes(s, rs[|rs| - 1].end)
  {
  }

  // Whatever the caps and the clock, the minutes queried over successive imports
  // are those from the first range's start to lastTimestamp, each exactly once.
  lemma {:induction false} EveryMinuteOnce(s: State, evs: seq<Event>)
    requires Smooth(s, evs) && Inv(s) && Covered(s) && AllOk(evs)
    ensures Covered(Run(s, evs)) && Inv(Run(s, evs))
    decreases |evs|
  {
    hide Covered, DoImport, Inv;
    if evs != [] {
      if evs[0].Imported? {
        ImportKeepsInv(s, evs[0].im);
        ImportKeepsCovered(s, evs[0].im);
      } else {
        ConfigureKeeps(s, evs[0].cfg);
      }
      EveryMinuteOnce(Apply(s, evs[0]), evs[1..]);
    }
  }

  lemma ConfigureKeeps(s: State, cfg: Config)
    requires Inv(s) && Covered(s) && cfg.Ok()
    ensures Inv(s.(cfg := cfg)) && Covered(s.(cfg := cfg))
  {
  }
}
