// The Prometheus importer: query range after range, store what came back, and
// remember how far it got, through failures, cancellation and restarts.
module Importer {
  import opened TimeRanges
  import opened Options

  // A stored metric: its series and timestamp. The amount plays no part here.
  datatype Sample = Sample(series: string, ts: int)

  datatype Config = Config(chunk: int, step: int, maxRanges: int, maxQueryRange: int, importFrom: Option<int>,
                           maxBackfill: int) {
    // What the guarantees over whole runs need.
    predicate Ok() {
      step >= MINUTE && chunk >= 0 && maxQueryRange >= 0
    }
  }

  // What happens to one range. The samples are what Prometheus has on offer; it
  // answers with those inside the range. A failing store keeps some prefix.
  datatype Outcome =
    | Cancelled
    | QueryFailed
    | NotAMatrix
    | CancelledAfterQuery(offered: seq<Sample>)
    | StoreFailed(offered: seq<Sample>, kept: nat)
    | Stored(offered: seq<Sample>)

  // The query was answered and the answer was handed to the store.
  predicate Answered(o: Outcome) {
    o.Stored? || o.StoreFailed?
  }

  // A query that was made: its range, the table it found, what it added, and
  // whether its answer got as far as the store.
  datatype Asking = Asking(range: Range, before: seq<Sample>, added: seq<Sample>, answered: bool)

  function Inside(r: Range, offered: seq<Sample>): (s: seq<Sample>)
    ensures forall i :: 0 <= i < |s| ==> r.start <= s[i].ts <= r.end
  {
    if offered == [] then []
    else (if r.start <= offered[0].ts <= r.end then [offered[0]] else []) + Inside(r, offered[1..])
  }

  function Take(s: seq<Sample>, n: nat): (t: seq<Sample>)
    ensures t <= s
  {
    if n <= |s| then s[..n] else s
  }

  // What the outcome adds to the table, and whether the loop goes on.
  function Added(r: Range, o: Outcome): (s: seq<Sample>)
    ensures forall i :: 0 <= i < |s| ==> r.start <= s[i].ts <= r.end
  {
    match o
    case Stored(offered) => Inside(r, offered)
    case StoreFailed(offered, kept) => Take(Inside(r, offered), kept)
    case _ => []
  }

  function At(script: seq<Outcome>, i: nat): Outcome {
    if i < |script| then script[i] else Cancelled
  }

  datatype Done = Done(table: seq<Sample>, askings: seq<Asking>, processed: seq<Range>, ok: bool)

  // The loop of ImportFromTimeRange over the ranges that are left.
  function RunRanges(rs: seq<Range>, script: seq<Outcome>, i: nat, table: seq<Sample>): Done
    decreases |rs|
  {
    if rs == [] then Done(table, [], [], true)
    else
      var o := At(script, i);
      var added := Added(rs[0], o);
      if o.Stored? then
        var d := RunRanges(rs[1..], script, i + 1, table + added);
        Done(d.table, [Asking(rs[0], table, added, Answered(o))] + d.askings, [rs[0]] + d.processed, d.ok)
      else
        Done(table + added, if o.Cancelled? then [] else [Asking(rs[0], table, added, Answered(o))], [], false)
  }

  // GetLastTimestampForTable: the greatest timestamp in the table.
  function LastTimestamp(table: seq<Sample>): (t: Option<int>)
    ensures t.None? <==> table == []
    ensures t.Some? ==> forall i :: 0 <= i < |table| ==> table[i].ts <= t.value
    ensures t.Some? ==> exists i :: 0 <= i < |table| && table[i].ts == t.value
  {
    if table == [] then None
    else
      var rest := LastTimestamp(table[1..]);
      if rest.None? || rest.value < table[0].ts then Some(table[0].ts)
      else
        assert exists i :: 0 <= i < |table[1..]| && table[1..][i].ts == rest.value;
        rest
  }

  // The importer and its table. askings is the history of all queries.
  datatype State = State(cfg: Config, last: Option<int>, table: seq<Sample>, askings: seq<Asking>)

  datatype Import = Import(now: int, allowIncomplete: bool, script: seq<Outcome>, readFails: bool)

  // lastTimestamp, read from the table when it is not known.
  function Known(s: State): Option<int> {
    if s.last.Some? then s.last else LastTimestamp(s.table)
  }

  function StartTime(s: State, now: int): int {
    if Known(s).Some? then Known(s).value + s.cfg.step
    else if s.cfg.importFrom.Some? then s.cfg.importFrom.value
    else now - s.cfg.maxBackfill
  }

  // The end of the interval after both caps. The first compares start minus end,
  // so only the second one has an effect on an interval that is not empty.
  function EndTime(cfg: Config, start: int, now: int): int {
    var end := if start - now >= cfg.maxQueryRange then start + cfg.maxQueryRange else now;
    if cfg.maxQueryRange != 0 && end - start > cfg.maxQueryRange then start + cfg.maxQueryRange else end
  }

  function QueryOf(cfg: Config, end: int, allowIncomplete: bool): Query {
    Query(end, cfg.chunk, cfg.step, cfg.maxRanges, allowIncomplete)
  }

  // The import ends: it has nothing to ask, or the chunking loop ends.
  predicate PlanEnds(s: State, im: Import) {
    var start := StartTime(s, im.now);
    start > im.now || Ends(QueryOf(s.cfg, EndTime(s.cfg, start, im.now), im.allowIncomplete), Trunc(start))
  }

  predicate ImportEnds(s: State, im: Import) {
    (s.last.None? && im.readFails) || PlanEnds(s, im)
  }

  lemma OkEnds(s: State, im: Import)
    requires s.cfg.Ok()
    ensures PlanEnds(s, im) && forall q: Query, t :: q.chunk == s.cfg.chunk && q.step == s.cfg.step ==> Ends(q, t)
  {
    TruncMonotone(0, s.cfg.chunk);
    TruncMonotone(MINUTE, s.cfg.step);
  }

  // The ranges an import sets out to query.
  function Plan(s: State, im: Import): seq<Range>
    requires PlanEnds(s, im)
  {
    var start := StartTime(s, im.now);
    if start > im.now then []
    else Ranges(QueryOf(s.cfg, EndTime(s.cfg, start, im.now), im.allowIncomplete), Trunc(start), 0)
  }

  function DoImport(s: State, im: Import): (r: (State, seq<Range>, bool))
    requires ImportEnds(s, im)
    ensures r.0.cfg == s.cfg
  {
    if s.last.None? && im.readFails then (s, [], false)
    else
      var d := RunRanges(Plan(s, im), im.script, 0, s.table);
      var last :=
        if !d.ok then None
        else if d.processed != [] then Some(d.processed[|d.processed| - 1].end)
        else Known(s);
      (State(s.cfg, last, d.table, s.askings + d.askings), d.processed, d.ok)
  }

  // --------------------------------------------------------------- the object

  class PrometheusImporter {
    var cfg: Config
    var lastTimestamp: Option<int>
    // The Presto table, which nothing else writes to.
    var table: seq<Sample>
    ghost var askings: seq<Asking>

    ghost function Value(): State
      reads this
    {
      State(cfg, lastTimestamp, table, askings)
    }

    constructor (cfg: Config, table: seq<Sample>)
      ensures Value() == State(cfg, None, table, [])
    {
      this.cfg, this.lastTimestamp, this.table, this.askings := cfg, None, table, [];
    }

    method UpdateConfig(cfg: Config)
      modifies this`cfg
      ensures this.cfg == cfg
    {
      this.cfg := cfg;
    }

    method ImportFromLastTimestamp(im: Import) returns (processed: seq<Range>, ok: bool)
      requires ImportEnds(Value(), im)
      modifies this
      ensures (Value(), processed, ok) == DoImport(old(Value()), im)
    {
      hide Ranges, RunRanges, LastTimestamp;
      processed, ok := [], true;
      var endTime := im.now;
      ghost var before := Value();
      if lastTimestamp.None? {
        if im.readFails {
          ok := false;
          return;
        }
        lastTimestamp := LastTimestamp(table);
      }
      var startTime;
      if lastTimestamp.Some? {
        startTime := lastTimestamp.value + cfg.step;
      } else if cfg.importFrom.Some? {
        startTime := cfg.importFrom.value;
      } else {
        startTime := endTime - cfg.maxBackfill;
      }
      assert startTime == StartTime(before, im.now) && lastTimestamp == Known(before);
      if startTime > endTime {
        RunNothing(im.script, table);
        assert askings + [] == askings;
        return;
      }
      if startTime - endTime >= cfg.maxQueryRange {
        endTime := startTime + cfg.maxQueryRange;
      }
      processed, ok := ImportFromTimeRange(startTime, endTime, im.allowIncomplete, im.script);
      if !ok {
        // What is in the table is not known any more.
        lastTimestamp := None;
      } else if |processed| != 0 {
        lastTimestamp := Some(processed[|processed| - 1].end);
      }
    }

    method ImportFromTimeRange(startTime: int, endTime0: int, allowIncomplete: bool, script: seq<Outcome>)
      returns (processed: seq<Range>, ok: bool)
      requires
        var end := if cfg.maxQueryRange != 0 && endTime0 - startTime > cfg.maxQueryRange
                   then startTime + cfg.maxQueryRange else endTime0;
        Ends(QueryOf(cfg, end, allowIncomplete), Trunc(startTime))
      modifies this`table, this`askings
      ensures
        var end := if cfg.maxQueryRange != 0 && endTime0 - startTime > cfg.maxQueryRange
                   then startTime + cfg.maxQueryRange else endTime0;
        var d := RunRanges(Ranges(QueryOf(cfg, end, allowIncomplete), Trunc(startTime), 0), script, 0, old(table));
        table == d.table && askings == old(askings) + d.askings && processed == d.processed && ok == d.ok
    {
      hide Ranges, RunRanges, Added, Matches;
      var endTime := endTime0;
      if cfg.maxQueryRange != 0 && endTime - startTime > cfg.maxQueryRange {
        endTime := startTime + cfg.maxQueryRange;
      }
      var ranges := GetTimeRangesChunked(startTime, QueryOf(cfg, endTime, allowIncomplete));
      processed, ok := [], true;
      var i := 0;
      ghost var left := ranges;
      ghost var whole := RunRanges(ranges, script, 0, table);
      MatchesAtStart(whole, askings);
      while i < |ranges|
        invariant i <= |ranges| && left == ranges[i..]
        invariant Matches(whole, RunRanges(left, script, i, table), askings, old(askings), processed)
      {
        assert left[0] == ranges[i];
        MatchesOnward(whole, left, script, i, table, askings, old(askings), processed);
        var o := At(script, i);
        if o.Cancelled? {
          assert Added(left[0], o) == [] && table + [] == table by {
            AddedNothing(left[0]);
          }
          ok := false;
          return;
        }
        ghost var found := table;
        var added := Added(ranges[i], o);
        table := table + added;
        askings := askings + [Asking(ranges[i], found, added, Answered(o))];
        if !o.Stored? {
          ok := false;
          return;
        }
        processed := processed + [ranges[i]];
        left := left[1..];
        i := i + 1;
      }
      MatchesAtEnd(whole, script, i, table, askings, old(askings), processed);
    }
  }

  // What has been done and what is left to do make up the whole.
  ghost predicate Matches(whole: Done, rest: Done, askings: seq<Asking>, before: seq<Asking>, processed: seq<Range>) {
    && whole.table == rest.table && whole.ok == rest.ok
    && before + whole.askings == askings + rest.askings
    && whole.processed == processed + rest.processed
  }

  lemma MatchesAtStart(whole: Done, askings: seq<Asking>)
    ensures Matches(whole, whole, askings, askings, [])
  {
    assert [] + whole.processed == whole.processed;
  }

  lemma MatchesAtEnd(whole: Done, script: seq<Outcome>, i: nat, table: seq<Sample>, askings: seq<Asking>,
                     before: seq<Asking>, processed: seq<Range>)
    requires Matches(whole, RunRanges([], script, i, table), askings, before, processed)
    ensures whole.table == table && whole.ok && before + whole.askings == askings && whole.processed == processed
  {
    assert askings + [] == askings && processed + [] == processed;
  }

  // One more range: either the loop goes on with it or this was the last one.
  lemma MatchesOnward(whole: Done, left: seq<Range>, script: seq<Outcome>, i: nat, table: seq<Sample>,
                      askings: seq<Asking>, before: seq<Asking>, processed: seq<Range>)
    requires left != [] && Matches(whole, RunRanges(left, script, i, table), askings, before, processed)
    ensures
      var o := At(script, i);
      var added := Added(left[0], o);
      var asking := Asking(left[0], table, added, Answered(o));
      if o.Stored? then
        Matches(whole, RunRanges(left[1..], script, i + 1, table + added), askings + [asking], before,
                processed + [left[0]])
      else
        && whole.table == table + added && !whole.ok && whole.processed == processed
        && before + whole.askings == (if o.Cancelled? then askings else askings + [asking])
  {
    hide Added;
    var o := At(script, i);
    var asking := Asking(left[0], table, Added(left[0], o), Answered(o));
    assert processed + [] == processed && askings + [] == askings;
    if o.Stored? {
      var d := RunRanges(left[1..], script, i + 1, table + Added(left[0], o));
      assert askings + ([asking] + d.askings) == (askings + [asking]) + d.askings;
      assert processed + ([left[0]] + d.processed) == (processed + [left[0]]) + d.processed;
    }
  }

  lemma AddedNothing(r: Range)
    ensures Added(r, Cancelled) == []
  {
  }

  lemma RunNothing(script: seq<Outcome>, table: seq<Sample>)
    ensures RunRanges([], script, 0, table) == Done(table, [], [], true)
  {
  }
}
