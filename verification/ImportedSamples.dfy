// Which samples an import takes over, told from what was on offer.
module ImportedSamples {
  import opened Options
  import opened TimeRanges
  import opened Importer
  import opened ImporterLaws
  import opened PartialStores

  // How often the answers to the ranges rs hold the sample x: the offers for the
  // range that contains its time.
  function OnOffer(rs: seq<Range>, script: seq<Outcome>, i: nat, x: Sample): nat
    decreases |rs|
  {
    if rs == [] then 0
    else
      (if At(script, i).Stored? && rs[0].start <= x.ts <= rs[0].end then multiset(At(script, i).offered)[x] else 0)
      + OnOffer(rs[1..], script, i + 1, x)
  }

  lemma {:induction false} InsideCounts(r: Range, offered: seq<Sample>, x: Sample)
    ensures multiset(Inside(r, offered))[x] == if r.start <= x.ts <= r.end then multiset(offered)[x] else 0
    decreases |offered|
  {
    if offered != [] {
      var o, rest := offered[0], offered[1..];
      InsideCounts(r, rest, x);
      assert offered == [o] + rest;
      assert multiset(offered)[x] == multiset([o])[x] + multiset(rest)[x];
      assert Inside(r, offered) == (if r.start <= o.ts <= r.end then [o] else []) + Inside(r, rest);
    }
  }

  // The order of the offer is kept.
  lemma {:induction false} InsideByTime(r: Range, offered: seq<Sample>)
    requires ByTime(offered)
    ensures ByTime(Inside(r, offered))
    ensures forall i :: 0 <= i < |Inside(r, offered)| ==> Inside(r, offered)[i] in offered
    decreases |offered|
  {
    if offered != [] {
      InsideByTime(r, offered[1..]);
      var rest := Inside(r, offered[1..]);
      assert forall j :: 0 <= j < |rest| ==> rest[j] in offered[1..] && offered[0].ts <= rest[j].ts;
    }
  }

  lemma {:induction false} RunCounts(rs: seq<Range>, script: seq<Outcome>, i: nat, table: seq<Sample>, x: Sample)
    requires RunRanges(rs, script, i, table).ok
    ensures multiset(RunRanges(rs, script, i, table).table)[x] == multiset(table)[x] + OnOffer(rs, script, i, x)
    decreases |rs|
  {
    hide RunRanges, Inside;
    RunStep(rs, script, i, table);
    if rs != [] {
      var o := At(script, i);
      InsideCounts(rs[0], o.offered, x);
      RunCounts(rs[1..], script, i + 1, table + Added(rs[0], o), x);
    }
  }

  // A successful import adds to the table exactly the samples on offer for its
  // ranges, each as often as it was offered.
  lemma ImportTakesAll(s: State, im: Import, x: Sample)
    requires PlanEnds(s, im) && DoImport(s, im).2
    ensures multiset(DoImport(s, im).0.table)[x] == multiset(s.table)[x] + OnOffer(Plan(s, im), im.script, 0, x)
  {
    hide RunRanges, Plan;
    RunCounts(Plan(s, im), im.script, 0, s.table, x);
  }

  lemma {:induction false} RunStores(rs: seq<Range>, script: seq<Outcome>, i: nat, table: seq<Sample>, k: nat,
                                     x: Sample)
    requires k < |rs| && (forall j :: i <= j <= i + k ==> At(script, j).Stored?)
    requires x in At(script, i + k).offered && rs[k].start <= x.ts <= rs[k].end
    ensures x in RunRanges(rs, script, i, table).table
    decreases |rs|
  {
    hide RunRanges, Inside;
    RunStep(rs, script, i, table);
    var next := table + Added(rs[0], At(script, i));
    if k == 0 {
      InsideCounts(rs[0], At(script, i).offered, x);
      assert x in next;
      RunGrows(rs[1..], script, i + 1, next);
    } else {
      RunStores(rs[1..], script, i + 1, next, k - 1, x);
    }
  }

  lemma {:induction false} RunGrows(rs: seq<Range>, script: seq<Outcome>, i: nat, table: seq<Sample>)
    ensures table <= RunRanges(rs, script, i, table).table
    decreases |rs|
  {
    hide RunRanges, Added;
    RunStep(rs, script, i, table);
    if rs != [] && At(script, i).Stored? {
      RunGrows(rs[1..], script, i + 1, table + Added(rs[0], At(script, i)));
    }
  }

  // Even if it fails later on, an import has stored every sample on offer for a
  // range up to which everything was stored.
  lemma StoredStays(s: State, im: Import, k: nat, x: Sample)
    requires ImportEnds(s, im) && PlanEnds(s, im) && !(s.last.None? && im.readFails) && k < |Plan(s, im)|
    requires forall j :: 0 <= j <= k ==> At(im.script, j).Stored?
    requires x in At(im.script, k).offered && Plan(s, im)[k].start <= x.ts <= Plan(s, im)[k].end
    ensures x in DoImport(s, im).0.table
  {
    hide RunRanges, Plan;
    RunStores(Plan(s, im), im.script, 0, s.table, k, x);
  }

  // A range that was not stored adds what a failing store kept of its answer, and
  // otherwise nothing.
  lemma FailureAdds(r: Range, o: Outcome)
    requires !o.Stored?
    ensures Added(r, o) <= Answer(r, o)
    ensures |Added(r, o)| ==
      if o.StoreFailed? then (if o.kept <= |Answer(r, o)| then o.kept else |Answer(r, o)|) else 0
  {
    hide Inside;
  }

  // Where an import takes up: a step behind the last timestamp if that is known,
  // else behind the latest sample of the table, and if that is empty at the
  // configured start or as far back as the backfill goes; cut to the minute.
  lemma TakesUpFrom(s: State, im: Import)
    requires PlanEnds(s, im) && Plan(s, im) != []
    ensures var start := Plan(s, im)[0].start;
      && (s.last.Some? ==> start == Trunc(s.last.value + s.cfg.step))
      && (s.last.None? && s.table != [] ==>
            exists i :: 0 <= i < |s.table| && start == Trunc(s.table[i].ts + s.cfg.step)
              && forall j :: 0 <= j < |s.table| ==> s.table[j].ts <= s.table[i].ts)
      && (s.last.None? && s.table == [] && s.cfg.importFrom.Some? ==> start == Trunc(s.cfg.importFrom.value))
      && (s.last.None? && s.table == [] && s.cfg.importFrom.None? ==> start == Trunc(im.now - s.cfg.maxBackfill))
  {
    hide Ranges, Trunc, LastTimestamp;
    var start := StartTime(s, im.now);
    FirstRangeStart(QueryOf(s.cfg, EndTime(s.cfg, start, im.now), im.allowIncomplete), Trunc(start));
    if s.last.None? && s.table != [] {
      var t := LastTimestamp(s.table).value;
      var i :| 0 <= i < |s.table| && s.table[i].ts == t;
    }
  }

  // What an import sets out to query: nothing if it would start in the future;
  // else its configured chunks, from there to now or as far as the cap on the
  // query range goes.
  lemma ImportAsks(s: State, im: Import)
    requires PlanEnds(s, im) && s.cfg.maxQueryRange >= 0
    ensures var start := StartTime(s, im.now);
      if im.now < start then Plan(s, im) == []
      else
        var end := if 0 < s.cfg.maxQueryRange < im.now - start then start + s.cfg.maxQueryRange else im.now;
        var q := Query(end, s.cfg.chunk, s.cfg.step, s.cfg.maxRanges, im.allowIncomplete);
        Ends(q, Trunc(start)) && Plan(s, im) == Ranges(q, Trunc(start), 0)
  {
    hide Ranges, StartTime;
  }
}
