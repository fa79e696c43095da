// The import status of a data source, and what it lets a report rely on.
module DataReadiness {
  import opened Options
  import opened TimeRanges
  import opened Importer
  import ImporterLaws
  import opened QueriedMinutes
  import Reports

  // A Prometheus data source: its importer and its stored import status.
  datatype Source = Source(imp: State, window: Option<Reports.Window>)

  function Widened(w: Option<Reports.Window>, processed: seq<Range>): Option<Reports.Window> {
    if processed == [] then w
    else
      var first, last := processed[0].start, processed[|processed| - 1].end;
      var seen := if w.Some? then w.value else Reports.Window(None, None);
      Some(Reports.Window(if seen.from.None? || first < seen.from.value then Some(first) else seen.from,
                          if seen.to.None? || seen.to.value < last then Some(last) else seen.to))
  }

  // The status part of handlePrometheusMetricsDataSource.
  class ImportStatus {
    var from: Option<int>
    var to: Option<int>
    var isSet: bool

    ghost function Value(): Option<Reports.Window>
      reads this
    {
      if isSet then Some(Reports.Window(from, to)) else None
    }

    constructor ()
      ensures Value() == None
    {
      from, to, isSet := None, None, false;
    }

    // written tells whether the status update reaches the API server.
    method RecordImport(processed: seq<Range>, written: bool)
      modifies this
      ensures Value() == if written then Widened(old(Value()), processed) else old(Value())
    {
      if |processed| == 0 {
        return;
      }
      var start, end := if isSet then from else None, if isSet then to else None;
      if start.None? || processed[0].start < start.value {
        start := Some(processed[0].start);
      }
      if end.None? || end.value < processed[|processed| - 1].end {
        end := Some(processed[|processed| - 1].end);
      }
      if written {
        from, to, isSet := start, end, true;
      }
    }
  }

  // ------------------------------------------------------------ one data source

  // The window lies inside what has been queried.
  ghost predicate WindowWithin(w: Option<Reports.Window>, span: Span) {
    w.Some? ==>
      && w.value.from.Some? && w.value.to.Some? && span.Span?
      && span.lo <= w.value.from.value && w.value.to.value <= span.hi
  }

  ghost predicate SourceInv(src: Source) {
    GapFree(src.imp) && WindowWithin(src.window, SpanOf(src.imp.askings))
  }

  // An import and the status update that follows it if it succeeds.
  function ImportInto(src: Source, im: Import, written: bool): Source
    requires ImportEnds(src.imp, im)
  {
    var r := DoImport(src.imp, im);
    Source(r.0, if r.2 && written then Widened(src.window, r.1) else src.window)
  }

  lemma WidenedWithin(w: Option<Reports.Window>, processed: seq<Range>, a: Span, b: Span)
    requires WindowWithin(w, a)
    requires processed != [] ==> b == Span(processed[0].start, processed[|processed| - 1].end)
    ensures WindowWithin(Widened(w, processed), Join(a, b)) && WindowWithin(w, Join(a, b))
  {
  }

  // An import that resumes, whether it succeeds and its status is written or not,
  // keeps the status inside the queried minutes.
  lemma ImportKeepsSource(src: Source, im: Import, written: bool)
    requires SourceInv(src) && ImportEnds(src.imp, im) && Resumes(src.imp, im)
    ensures SourceInv(ImportInto(src, im, written))
  {
    hide GapFree, Resumes, SpanOf, Join, WindowWithin, Widened;
    ResumingKeepsGapFree(src.imp, im);
    ImportSpan(src.imp, im);
    var r := DoImport(src.imp, im);
    if r.2 {
      WidenedWithin(src.window, r.1, SpanOf(src.imp.askings), SpanOf(Asks(src.imp, im)));
    }
    WidenedWithin(src.window, [], SpanOf(src.imp.askings), SpanOf(Asks(src.imp, im)));
  }

  // What a successful import processed is what it got answered.
  lemma ImportSpan(s: State, im: Import)
    requires GapFree(s) && ImportEnds(s, im)
    ensures var r := DoImport(s, im);
      && SpanOf(r.0.askings) == Join(SpanOf(s.askings), SpanOf(Asks(s, im)))
      && (r.2 && r.1 != [] ==> SpanOf(Asks(s, im)) == Span(r.1[0].start, r.1[|r.1| - 1].end))
      && (r.2 ==> PlanEnds(s, im) && r.1 == Plan(s, im))
  {
    hide SpanOf, Solid, RunRanges, Plan, Anchored, Trunc, Join;
    if s.last.None? && im.readFails {
      assert s.askings + [] == s.askings;
    } else {
      ImportIsBlock(s, im);
    }
    SpanAppend(s.askings, Asks(s, im));
  }

  // Whatever the status covers was queried, minute by minute.
  lemma CoveredMinutesWereQueried(src: Source, p: Reports.Period, m: int)
    requires SourceInv(src) && Reports.Covers(src.window, p) && Aligned(m) && p.start <= m <= p.end
    ensures Queried(src.imp.askings, m)
  {
    hide Queried, SpanOf, Anchored;
  }

  // Every minute of the window was queried.
  ghost predicate WindowQueried(src: Source) {
    src.window.Some? && src.window.value.from.Some? && src.window.value.to.Some? ==>
      forall m :: Aligned(m) && src.window.value.from.value <= m <= src.window.value.to.value ==>
        Queried(src.imp.askings, m)
  }

  // A window inside a stretch lo to hi without a gap, widened by a successful
  // import from s to e, spans no minute that was not queried if and only if the
  // import leaves no gap after the stretch or before it. The window falls behind
  // the stretch where imports failed or status updates were lost.
  lemma WindowQueriedIff(src: Source, im: Import, a: int, b: int)
    requires SourceInv(src) && ImportEnds(src.imp, im) && DoImport(src.imp, im).2
    requires PlanEnds(src.imp, im) && Plan(src.imp, im) != []
    requires src.window == Some(Reports.Window(Some(a), Some(b))) && a <= b
    ensures SpanOf(src.imp.askings).Span?
    ensures var plan, span := Plan(src.imp, im), SpanOf(src.imp.askings);
      var s, e := plan[0].start, plan[|plan| - 1].end;
      && ImportInto(src, im, true).window ==
         Some(Reports.Window(Some(if a <= s then a else s), Some(if b <= e then e else b)))
      && (WindowQueried(ImportInto(src, im, true)) <==> s <= span.hi + MINUTE && span.lo <= e + MINUTE)
  {
    hide SpanOf, Anchored, Solid, DoImport, Plan, Queried, Asks, ImporterLaws.Inv, Aligned;
    ImportSpan(src.imp, im);
    BlockOfImport(src.imp, im);
    var t, plan := ImportInto(src, im, true), Plan(src.imp, im);
    var past, more := src.imp.askings, Asks(src.imp, im);
    SolidEnds(past);
    SolidEnds(more);
    SolidJoinIff(past, more);
    SpanAppend(past, more);
    if Meet(SpanOf(past), SpanOf(more)) {
      SolidWindow(t);
    } else {
      GapInWindow(t, past, more, a, b);
    }
  }

  lemma SolidWindow(src: Source)
    requires Solid(src.imp.askings) && WindowWithin(src.window, SpanOf(src.imp.askings))
    ensures WindowQueried(src)
  {
    hide SpanOf, Queried, Aligned;
  }

  // The minute after the earlier of two stretches that do not meet is missing.
  lemma GapInWindow(src: Source, past: seq<Asking>, more: seq<Asking>, a: int, b: int)
    requires src.imp.askings == past + more && SpanOf(past).Span? && SpanOf(more).Span?
    requires !Meet(SpanOf(past), SpanOf(more))
    requires var x, y := SpanOf(past), SpanOf(more);
      && Aligned(x.hi) && Aligned(y.hi) && x.lo <= a <= b <= x.hi && y.lo <= y.hi
      && src.window == Some(Reports.Window(Some(if a <= y.lo then a else y.lo), Some(if b <= y.hi then y.hi else b)))
    ensures !WindowQueried(src)
  {
    hide SpanOf, Queried, Aligned;
    var x, y := SpanOf(past), SpanOf(more);
    var m := if y.lo > x.hi + MINUTE then x.hi + MINUTE else y.hi + MINUTE;
    AlignedStep(x.hi);
    AlignedStep(y.hi);
    QueriedAppend(past, more, m);
    if Queried(past, m) {
      QueriedInSpan(past, m);
    }
    if Queried(more, m) {
      QueriedInSpan(more, m);
    }
  }

  lemma BlockOfImport(s: State, im: Import)
    requires GapFree(s) && ImportEnds(s, im)
    ensures Solid(Asks(s, im)) && DoImport(s, im).0.askings == s.askings + Asks(s, im)
  {
    hide SpanOf, Solid, RunRanges, Plan, Anchored, Trunc;
    if s.last.None? && im.readFails {
      SolidNone();
      assert s.askings + [] == s.askings;
    } else {
      ImportIsBlock(s, im);
    }
  }

  // -------------------------------------------------------------- many of them

  // A generation of a report: for which period, when, relying on which sources.
  datatype Generation = Generation(period: Reports.Period, now: int, sources: seq<string>)

  datatype System = System(sources: map<string, Source>, generations: seq<Generation>)

  // An import, whatever becomes of it and of its status update, a new
  // configuration, a restart of the importer, or a reconcile of a report.
  datatype Event =
    | Imports(id: string, im: Import, written: bool)
    | Configure(id: string, cfg: Config)
    | Restarts(id: string)
    | Reconcile(spec: Reports.Spec, status: Reports.Status, turn: Reports.Turn, deps: seq<string>)

  function WindowsOf(sys: System, deps: seq<string>): seq<Option<Reports.Window>>
    requires forall i :: 0 <= i < |deps| ==> deps[i] in sys.sources
  {
    seq(|deps|, i requires 0 <= i < |deps| => sys.sources[deps[i]].window)
  }

  // The event is about sources there are, steps are minutes, and no report is
  // run immediately.
  predicate Possible(sys: System, ev: Event) {
    match ev
    case Imports(id, im, _) => id in sys.sources && ImportEnds(sys.sources[id].imp, im)
    case Configure(id, cfg) => id in sys.sources && cfg.Ok() && cfg.step == MINUTE
    case Restarts(id) => id in sys.sources
    case Reconcile(spec, _, _, deps) =>
      !spec.runImmediately && forall i :: 0 <= i < |deps| ==> deps[i] in sys.sources
  }

  // An import resumes where the queries so far leave off.
  predicate Guarded(sys: System, ev: Event)
    requires Possible(sys, ev)
  {
    ev.Imports? ==> Resumes(sys.sources[ev.id].imp, ev.im)
  }

  function WithImporter(sys: System, id: string, imp: State): System
    requires id in sys.sources
  {
    sys.(sources := sys.sources[id := sys.sources[id].(imp := imp)])
  }

  // The reconcile reads the stored import status of the sources it depends on.
  function Apply(sys: System, ev: Event): System
    requires Possible(sys, ev)
  {
    match ev
    case Imports(id, im, written) =>
      sys.(sources := sys.sources[id := ImportInto(sys.sources[id], im, written)])
    case Configure(id, cfg) => WithImporter(sys, id, sys.sources[id].imp.(cfg := cfg))
    case Restarts(id) => WithImporter(sys, id, sys.sources[id].imp.(last := None))
    case Reconcile(spec, status, turn, deps) =>
      var r := Reports.Reconcile(spec, status, turn.(sources := WindowsOf(sys, deps)));
      if r.generated.Some?
      then sys.(generations := sys.generations + [Generation(r.generated.value, turn.now, deps)]) else sys
  }

  predicate PossibleRun(sys: System, evs: seq<Event>)
    decreases |evs|
  {
    evs == [] || (Possible(sys, evs[0]) && PossibleRun(Apply(sys, evs[0]), evs[1..]))
  }

  predicate GuardedRun(sys: System, evs: seq<Event>)
    requires PossibleRun(sys, evs)
    decreases |evs|
  {
    evs == [] || (Guarded(sys, evs[0]) && GuardedRun(Apply(sys, evs[0]), evs[1..]))
  }

  function Run(sys: System, evs: seq<Event>): System
    requires PossibleRun(sys, evs)
    decreases |evs|
  {
    if evs == [] then sys else Run(Apply(sys, evs[0]), evs[1..])
  }

  // The period was over, and every minute of it had been queried by each source.
  ghost predicate Backed(sys: System, g: Generation) {
    && g.period.end <= g.now
    && forall i, m :: 0 <= i < |g.sources| && Aligned(m) && g.period.start <= m <= g.period.end ==>
         g.sources[i] in sys.sources && Queried(sys.sources[g.sources[i]].imp.askings, m)
  }

  ghost predicate SystemInv(sys: System) {
    && (forall id :: id in sys.sources ==> SourceInv(sys.sources[id]))
    && (forall k :: 0 <= k < |sys.generations| ==> Backed(sys, sys.generations[k]))
  }

  // A report that is not run immediately generates only when its period is over
  // and its dependencies are met.
  lemma GeneratesOnlyWhenReady(spec: Reports.Spec, status: Reports.Status, turn: Reports.Turn)
    requires !spec.runImmediately && Reports.Reconcile(spec, status, turn).generated.Some?
    ensures var p := Reports.Reconcile(spec, status, turn).generated.value;
      p.end <= turn.now && Reports.Met(turn, p)
  {
  }

  // Queried minutes stay queried.
  ghost predicate Keeps(sys: System, t: System) {
    forall id, m :: id in sys.sources && Queried(sys.sources[id].imp.askings, m) ==>
      id in t.sources && Queried(t.sources[id].imp.askings, m)
  }

  lemma ApplyKeepsQueried(sys: System, ev: Event)
    requires Possible(sys, ev)
    ensures Keeps(sys, Apply(sys, ev)) && Apply(sys, ev).sources.Keys == sys.sources.Keys
  {
    hide Queried, DoImport, ImportEnds, Reports.Reconcile;
    if ev.Imports? {
      var s := sys.sources[ev.id].imp;
      forall m | Queried(s.askings, m)
        ensures Queried(DoImport(s, ev.im).0.askings, m)
      {
        StaysQueried(s, ev.im, m);
      }
    }
  }

  lemma BackedStays(sys: System, t: System, g: Generation)
    requires Backed(sys, g) && Keeps(sys, t)
    ensures Backed(t, g)
  {
    hide Queried;
    forall i, m | 0 <= i < |g.sources| && Aligned(m) && g.period.start <= m <= g.period.end
      ensures g.sources[i] in t.sources && Queried(t.sources[g.sources[i]].imp.askings, m)
    {
      assert g.sources[i] in sys.sources;
    }
  }

  lemma SourcesKept(sys: System, ev: Event)
    requires SystemInv(sys) && Possible(sys, ev) && Guarded(sys, ev)
    ensures forall id :: id in Apply(sys, ev).sources ==> SourceInv(Apply(sys, ev).sources[id])
  {
    hide GapFree, ImportInto, Backed, WindowWithin, Reports.Reconcile, Resumes, ImportEnds, SpanOf;
    match ev {
      case Imports(id, im, written) => ImportKeepsSource(sys.sources[id], im, written);
      case Configure(id, cfg) => ConfigureKeepsGapFree(sys.sources[id].imp, cfg);
      case Restarts(id) => RestartKeepsGapFree(sys.sources[id].imp);
      case Reconcile(_, _, _, _) =>
    }
  }

  lemma ApplyKeepsInv(sys: System, ev: Event)
    requires SystemInv(sys) && Possible(sys, ev) && Guarded(sys, ev)
    ensures SystemInv(Apply(sys, ev))
  {
    hide SourceInv, ImportInto, Backed, Reports.Reconcile, Keeps, Guarded, ImportEnds;
    SourcesKept(sys, ev);
    ApplyKeepsQueried(sys, ev);
    var t := Apply(sys, ev);
    forall k | 0 <= k < |t.generations|
      ensures Backed(t, t.generations[k])
    {
      if k < |sys.generations| {
        BackedStays(sys, t, sys.generations[k]);
      } else {
        GenerationIsBacked(sys, ev.spec, ev.status, ev.turn, ev.deps);
        BackedStays(sys, t, t.generations[k]);
      }
    }
  }

  lemma GenerationIsBacked(sys: System, spec: Reports.Spec, status: Reports.Status, turn: Reports.Turn,
                           deps: seq<string>)
    requires SystemInv(sys) && !spec.runImmediately && forall i :: 0 <= i < |deps| ==> deps[i] in sys.sources
    requires Reports.Reconcile(spec, status, turn.(sources := WindowsOf(sys, deps))).generated.Some?
    ensures var p := Reports.Reconcile(spec, status, turn.(sources := WindowsOf(sys, deps))).generated.value;
      Backed(sys, Generation(p, turn.now, deps))
  {
    hide SourceInv, Queried, Reports.Reconcile, Reports.Covers;
    var read := turn.(sources := WindowsOf(sys, deps));
    GeneratesOnlyWhenReady(spec, status, read);
    var p := Reports.Reconcile(spec, status, read).generated.value;
    forall i, m | 0 <= i < |deps| && Aligned(m) && p.start <= m <= p.end
      ensures deps[i] in sys.sources && Queried(sys.sources[deps[i]].imp.askings, m)
    {
      assert read.sources[i] == sys.sources[deps[i]].window;
      CoveredMinutesWereQueried(sys.sources[deps[i]], p, m);
    }
  }

  // Over every interleaving of imports, failed ones and lost status updates
  // included, restarts, configurations and reconciles in which the imports
  // resume: each period that was generated was over by then, and every minute of
  // it had been queried by every data source the report depends on.
  lemma {:induction false} GenerationsAreBacked(sys: System, evs: seq<Event>)
    requires SystemInv(sys) && PossibleRun(sys, evs) && GuardedRun(sys, evs)
    ensures SystemInv(Run(sys, evs))
    decreases |evs|
  {
    hide SystemInv, Possible, Apply, Guarded;
    if evs != [] {
      ApplyKeepsInv(sys, evs[0]);
      GenerationsAreBacked(Apply(sys, evs[0]), evs[1..]);
    }
  }

  // ------------------------------------------------------- runs that are guarded

  // The event leaves the importer knowing where it is: an import succeeds or
  // there is a sample in the table, and there is no restart of an importer whose
  // table is empty.
  predicate Calm(sys: System, ev: Event)
    requires Possible(sys, ev)
  {
    match ev
    case Imports(id, im, _) =>
      DoImport(sys.sources[id].imp, im).2 || DoImport(sys.sources[id].imp, im).0.table != []
    case Restarts(id) => sys.sources[id].imp.table != []
    case _ => true
  }

  predicate CalmRun(sys: System, evs: seq<Event>)
    requires PossibleRun(sys, evs)
    decreases |evs|
  {
    evs == [] || (Calm(sys, evs[0]) && CalmRun(Apply(sys, evs[0]), evs[1..]))
  }

  // Whoever has queried anything knows where to take up from.
  ghost predicate Oriented(sys: System) {
    forall id :: id in sys.sources && SpanOf(sys.sources[id].imp.askings).Span? ==> Known(sys.sources[id].imp).Some?
  }

  lemma CalmKeepsOriented(sys: System, ev: Event)
    requires SystemInv(sys) && Oriented(sys) && Possible(sys, ev) && Calm(sys, ev)
    ensures Guarded(sys, ev) && Oriented(Apply(sys, ev))
  {
    hide SourceInv, Backed, Reports.Reconcile, SpanOf, LastTimestamp;
    match ev {
      case Imports(id, im, _) => ImportOriented(sys.sources[id], im);
      case _ =>
    }
  }

  lemma ImportOriented(src: Source, im: Import)
    requires SourceInv(src) && ImportEnds(src.imp, im)
    requires SpanOf(src.imp.askings).Span? ==> Known(src.imp).Some?
    requires DoImport(src.imp, im).2 || DoImport(src.imp, im).0.table != []
    ensures Resumes(src.imp, im)
    ensures var t := DoImport(src.imp, im).0; SpanOf(t.askings).Span? ==> Known(t).Some?
  {
    hide SpanOf, Solid, Anchored, LastTimestamp, RunRanges, Plan;
    ImportSpan(src.imp, im);
    var r := DoImport(src.imp, im);
    if r.2 && r.1 == [] {
      ImportNone(src.imp, im);
    }
  }

  lemma ImportNone(s: State, im: Import)
    requires GapFree(s) && ImportEnds(s, im) && DoImport(s, im).2 && DoImport(s, im).1 == []
    ensures SpanOf(DoImport(s, im).0.askings) == SpanOf(s.askings)
  {
    hide SpanOf, Solid, Anchored, LastTimestamp, RunRanges, Plan;
    ImportSpan(s, im);
    ImporterLaws.RunStep(Plan(s, im), im.script, 0, s.table);
    assert s.askings + [] == s.askings;
  }

  // So runs of successful imports, and runs that only fail or restart once the
  // table holds a sample, are guarded.
  lemma {:induction false} CalmIsGuarded(sys: System, evs: seq<Event>)
    requires SystemInv(sys) && Oriented(sys) && PossibleRun(sys, evs) && CalmRun(sys, evs)
    ensures GuardedRun(sys, evs)
    decreases |evs|
  {
    hide SystemInv, Oriented, Possible, Apply, Guarded, Calm;
    if evs != [] {
      CalmKeepsOriented(sys, evs[0]);
      ApplyKeepsInv(sys, evs[0]);
      CalmIsGuarded(Apply(sys, evs[0]), evs[1..]);
    }
  }

  // --------------------------------------------------------- runs that are not

  // A run-once report for the period, on a reconcile where every step succeeds.
  function OnceFor(p: Reports.Period, now: int, id: string): Event {
    Reconcile(Reports.Spec(Reports.RunOnce, Some(p.start), Some(p.end), false), Reports.Status(None, None, None, false),
              Reports.Turn(now, true, [], [], true, true, true, true, true, true, true), [id])
  }

  lemma OnceGenerates(sys: System, id: string, a: int, b: int, now: int)
    requires id in sys.sources && a < b <= now
    requires sys.sources[id].window == Some(Reports.Window(Some(a), Some(b)))
    ensures var ev := OnceFor(Reports.Period(a, b), now, id);
      Possible(sys, ev)
      && Apply(sys, ev) == sys.(generations := sys.generations + [Generation(Reports.Period(a, b), now, [id])])
  {
    var ev := OnceFor(Reports.Period(a, b), now, id);
    var windows := WindowsOf(sys, [id]);
    assert windows == [sys.sources[id].window];
  }

  // A window with a minute that was not queried lets a report be generated that
  // is not backed: so imports that resume are just what it takes.
  lemma UnqueriedWindowShows(sys: System, id: string, a: int, b: int, now: int)
    requires id in sys.sources && a < b <= now
    requires sys.sources[id].window == Some(Reports.Window(Some(a), Some(b))) && !WindowQueried(sys.sources[id])
    ensures var ev := OnceFor(Reports.Period(a, b), now, id);
      && Possible(sys, ev)
      && var t := Apply(sys, ev);
      && t.generations == sys.generations + [Generation(Reports.Period(a, b), now, [id])]
      && !Backed(t, Generation(Reports.Period(a, b), now, [id]))
  {
    hide SpanOf, Queried, Apply, Reports.Reconcile;
    OnceGenerates(sys, id, a, b, now);
    var g := Generation(Reports.Period(a, b), now, [id]);
    var m :| Aligned(m) && a <= m <= b && !Queried(sys.sources[id].imp.askings, m);
    assert g.sources[0] == id;
  }

  // One chunk of a hundred minutes at a time, three hundred minutes back.
  function ShortConfig(): Config {
    Config(100 * MINUTE, MINUTE, 1, 0, None, 300 * MINUTE)
  }

  lemma ShortImport(s: State, now: int)
    requires s.cfg == ShortConfig() && s.last.None? && s.table == [] && Aligned(now)
    ensures var im := Import(now, true, [Stored([])], false);
      var r := Range(now - 300 * MINUTE, now - 200 * MINUTE, MINUTE);
      && ImportEnds(s, im)
      && DoImport(s, im) ==
        (s.(last := Some(now - 200 * MINUTE), askings := s.askings + [Asking(r, [], [], true)]), [r], true)
  {
    var im := Import(now, true, [Stored([])], false);
    var a, b := now - 300 * MINUTE, now - 200 * MINUTE;
    var q := Query(now, 100 * MINUTE, MINUTE, 1, true);
    assert StartTime(s, now) == a && EndTime(s.cfg, a, now) == now && QueryOf(s.cfg, now, true) == q;
    AlignedBack(now);
    TruncFrom(a, 100 * MINUTE);
    assert ChunkEnd(q, a) == b && Trunc(now) == now && !Stops(q, a) && !IsLast(q, a);
    NextChunk(q, a);
    assert Ranges(q, Trunc(b + MINUTE), 1) == [];
    var r := Range(a, b, MINUTE);
    assert Plan(s, im) == [r];
    hide Plan;
    assert Added(r, Stored([])) == [] && [r][1..] == [];
    ImporterLaws.RunStep([r], im.script, 0, []);
    ImporterLaws.RunStep([], im.script, 1, []);
    assert RunRanges([r], im.script, 0, []) == Done([], [Asking(r, [], [], true)], [r], true);
  }

  lemma AlignedBack(now: int)
    requires Aligned(now)
    ensures Aligned(now - 300 * MINUTE) && Aligned(now - 200 * MINUTE) && Trunc(100 * MINUTE) == 100 * MINUTE
  {
  }

  // The data source ds alone, with an empty table.
  function Alone(asks: seq<Asking>, last: Option<int>, w: Option<Reports.Window>): System {
    System(map["ds" := Source(State(ShortConfig(), last, [], asks), w)], [])
  }

  function EmptyImport(now: int): Event {
    Imports("ds", Import(now, true, [Stored([])], false), true)
  }

  function ShortRange(now: int): Range {
    Range(now - 300 * MINUTE, now - 200 * MINUTE, MINUTE)
  }

  lemma AloneImports(asks: seq<Asking>, w: Option<Reports.Window>, now: int)
    requires Aligned(now)
    ensures Possible(Alone(asks, None, w), EmptyImport(now))
    ensures Apply(Alone(asks, None, w), EmptyImport(now)) ==
      Alone(asks + [Found(now)], Some(now - 200 * MINUTE), Widened(w, [ShortRange(now)]))
  {
    ShortImport(State(ShortConfig(), None, [], asks), now);
    hide DoImport, ImportEnds;
  }

  lemma AloneStarts()
    ensures SystemInv(Alone([], None, None))
  {
    hide GapFree;
    NewIsGapFree(ShortConfig(), []);
  }

  // Two imports that find no sample, three hundred minutes and a restart apart,
  // then a report over both.
  function ForgetfulRun(): seq<Event> {
    [EmptyImport(400 * MINUTE), Restarts("ds"), EmptyImport(700 * MINUTE),
     OnceFor(Reports.Period(100 * MINUTE, 500 * MINUTE), 700 * MINUTE, "ds")]
  }

  function Found(now: int): Asking {
    Asking(ShortRange(now), [], [], true)
  }

  function LongReport(): Generation {
    Generation(Reports.Period(100 * MINUTE, 500 * MINUTE), 700 * MINUTE, ["ds"])
  }

  lemma ForgetfulEnds()
    ensures var sys, evs := Alone([], None, None), ForgetfulRun();
      var w := Some(Reports.Window(Some(100 * MINUTE), Some(500 * MINUTE)));
      && PossibleRun(sys, evs)
      && Run(sys, evs) ==
         Alone([Found(400 * MINUTE), Found(700 * MINUTE)], Some(500 * MINUTE), w).(generations := [LongReport()])
  {
    hide Apply, Possible, Run, PossibleRun;
    var a1, a2 := Found(400 * MINUTE), Found(700 * MINUTE);
    var w1 := Some(Reports.Window(Some(100 * MINUTE), Some(200 * MINUTE)));
    var w3 := Some(Reports.Window(Some(100 * MINUTE), Some(500 * MINUTE)));
    AloneImports([], None, 400 * MINUTE);
    assert [] + [a1] == [a1];
    AloneRestarts([a1], Some(200 * MINUTE), w1);
    AloneImports([a1], w1, 700 * MINUTE);
    assert [a1] + [a2] == [a1, a2];
    var y3 := Alone([a1, a2], Some(500 * MINUTE), w3);
    OnceGenerates(y3, "ds", 100 * MINUTE, 500 * MINUTE, 700 * MINUTE);
    FourEvents(Alone([], None, None), Alone([a1], Some(200 * MINUTE), w1), Alone([a1], None, w1), y3, ForgetfulRun());
  }

  // Every import succeeds, and yet the report is generated for two hundred
  // minutes that were never queried.
  lemma UnbackedGeneration()
    ensures var sys, evs := Alone([], None, None), ForgetfulRun();
      && SystemInv(sys) && PossibleRun(sys, evs)
      && Run(sys, evs).generations == [LongReport()] && !Backed(Run(sys, evs), LongReport())
  {
    hide SystemInv, Run, PossibleRun, ForgetfulRun;
    AloneStarts();
    ForgetfulEnds();
    assert LongReport().sources[0] == "ds" && Aligned(300 * MINUTE);
    assert !Queried([Found(400 * MINUTE), Found(700 * MINUTE)], 300 * MINUTE);
  }

  lemma AloneRestarts(asks: seq<Asking>, last: Option<int>, w: Option<Reports.Window>)
    ensures Possible(Alone(asks, last, w), Restarts("ds"))
    ensures Apply(Alone(asks, last, w), Restarts("ds")) == Alone(asks, None, w)
  {
  }

  lemma FourEvents(y0: System, y1: System, y2: System, y3: System, evs: seq<Event>)
    requires |evs| == 4 && Possible(y0, evs[0]) && Apply(y0, evs[0]) == y1
    requires Possible(y1, evs[1]) && Apply(y1, evs[1]) == y2
    requires Possible(y2, evs[2]) && Apply(y2, evs[2]) == y3 && Possible(y3, evs[3])
    ensures PossibleRun(y0, evs) && Run(y0, evs) == Apply(y3, evs[3])
  {
    hide Possible, Apply;
    var e1, e2, e3 := evs[1..], evs[1..][1..], evs[1..][1..][1..];
    assert e3[1..] == [] && e1[0] == evs[1] && e2[0] == evs[2] && e3[0] == evs[3];
    assert PossibleRun(y3, e3) && Run(y3, e3) == Apply(y3, evs[3]);
    assert PossibleRun(y2, e2) && Run(y2, e2) == Run(y3, e3);
    assert PossibleRun(y1, e1) && Run(y1, e1) == Run(y2, e2);
  }
}
