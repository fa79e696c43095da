// What a failed import loses: the samples it had in hand and did not store, and
// whether the next import asks for them again.
module PartialStores {
  import opened Options
  import opened TimeRanges
  import opened Importer
  import opened ImporterLaws

  // The answer to the query, in the order in which it is stored.
  function Answer(r: Range, o: Outcome): seq<Sample> {
    match o
    case Stored(offered) => Inside(r, offered)
    case StoreFailed(offered, _) => Inside(r, offered)
    case CancelledAfterQuery(offered) => Inside(r, offered)
    case _ => []
  }

  // The answer is sorted by timestamp before it is stored.
  ghost predicate ByTime(a: seq<Sample>) {
    forall i, j :: 0 <= i < j < |a| ==> a[i].ts <= a[j].ts
  }

  // Prometheus gives samples a step apart, one for each series.
  ghost predicate Spaced(a: seq<Sample>, step: int) {
    forall i, j :: 0 <= i < j < |a| ==> a[i].ts == a[j].ts || a[i].ts + step <= a[j].ts
  }

  // The outcome at k is the first that does not store everything.
  ghost predicate FailsAt(script: seq<Outcome>, i: nat, k: nat) {
    (forall j :: i <= j < i + k ==> At(script, j).Stored?) && !At(script, i + k).Stored?
  }

  // After any sample of the table an import would take up by t.
  ghost predicate LeadsBy(table: seq<Sample>, step: int, t: int) {
    forall i :: 0 <= i < |table| ==> Trunc(table[i].ts + step) <= t
  }

  // The range b starts a step after a, which does not run backwards.
  ghost predicate Follows(a: Range, b: Range, step: int) {
    a.start <= a.end && b.start == Trunc(a.end + step)
  }

  ghost predicate StepApart(rs: seq<Range>, step: int) {
    forall i, j :: 0 <= i && i + 1 == j && j < |rs| ==> Follows(rs[i], rs[j], step)
  }

  lemma StepApartCons(r: Range, rest: seq<Range>, step: int)
    requires StepApart(rest, step) && r.start <= r.end && (rest != [] ==> rest[0].start == Trunc(r.end + step))
    ensures StepApart([r] + rest, step)
  {
    var rs := [r] + rest;
    assert rest != [] ==> Follows(r, rest[0], step);
    hide Follows;
    forall i, j | 0 <= i && i + 1 == j && j < |rs|
      ensures Follows(rs[i], rs[j], step)
    {
      if i > 0 {
        assert Follows(rest[i - 1], rest[j - 1], step);
      }
    }
  }

  lemma StepApartTail(rs: seq<Range>, step: int)
    requires StepApart(rs, step) && rs != []
    ensures StepApart(rs[1..], step)
  {
    hide Follows;
    var rest := rs[1..];
    forall i, j | 0 <= i && i + 1 == j && j < |rest|
      ensures Follows(rest[i], rest[j], step)
    {
      assert Follows(rs[i + 1], rs[j + 1], step);
    }
  }

  lemma {:induction false} RangesStepApart(q: Query, s: int, i: nat)
    requires Ends(q, s) && Aligned(s) && q.chunk >= 0
    ensures StepApart(Ranges(q, s, i), q.step)
    ensures Ranges(q, s, i) != [] ==> Ranges(q, s, i)[0].start == s
    decreases if q.maxRanges > 0 then q.maxRanges - i else 0, if q.maxRanges > 0 then 0 else Room(q, s)
  {
    hide Trunc, Aligned, Stops, ChunkEnd, StepApart;
    StepApartNone(q.step);
    if !((q.maxRanges > 0 && i >= q.maxRanges) || Stops(q, s)) && !IsLast(q, s) {
      NextChunk(q, s);
      ChunkEndFacts(q, s);
      var e := ChunkEnd(q, s);
      RangesStepApart(q, Trunc(e + q.step), i + 1);
      StepApartCons(Range(s, e, q.step), Ranges(q, Trunc(e + q.step), i + 1), q.step);
    } else if !((q.maxRanges > 0 && i >= q.maxRanges) || Stops(q, s)) {
      StepApartOne(Range(s, ChunkEnd(q, s), q.step), q.step);
    }
  }

  lemma StepApartNone(step: int)
    ensures StepApart([], step)
  {
  }

  lemma StepApartOne(r: Range, step: int)
    ensures StepApart([r], step)
  {
  }

  // What the table holds when the loop fails at range k.
  lemma {:induction false} TableAtFailure(rs: seq<Range>, script: seq<Outcome>, i: nat, table: seq<Sample>, step: int,
                                          k: nat) returns (before: seq<Sample>)
    requires Ascending(rs) && StepApart(rs, step) && k < |rs| && FailsAt(script, i, k)
    requires Before(table, rs[0].start) && LeadsBy(table, step, rs[0].start)
    ensures var d := RunRanges(rs, script, i, table);
      !d.ok && d.table == before + Added(rs[k], At(script, i + k))
    ensures Before(before, rs[k].start) && LeadsBy(before, step, rs[k].start)
    decreases |rs|
  {
    hide Added, RunRanges, Trunc;
    RunStep(rs, script, i, table);
    if k == 0 {
      before := table;
    } else {
      assert At(script, i).Stored? && Follows(rs[0], rs[1], step);
      var added := Added(rs[0], At(script, i));
      var next := table + added;
      assert Before(next, rs[1].start);
      forall j | 0 <= j < |next|
        ensures Trunc(next[j].ts + step) <= rs[1].start
      {
        if j < |table| {
          assert Trunc(table[j].ts + step) <= rs[0].start <= rs[0].end < rs[1].start;
        } else {
          assert next[j] == added[j - |table|];
          TruncMonotone(next[j].ts + step, rs[0].end + step);
        }
      }
      StepApartTail(rs, step);
      before := TableAtFailure(rs[1..], script, i + 1, next, step, k - 1);
    }
  }

  // An import that sets out leaves nothing before its first range to be asked for.
  lemma PlanLeads(s: State, im: Import)
    requires Inv(s) && PlanEnds(s, im) && Plan(s, im) != []
    ensures StepApart(Plan(s, im), s.cfg.step) && LeadsBy(s.table, s.cfg.step, Plan(s, im)[0].start)
  {
    hide Ranges, Trunc;
    var start := StartTime(s, im.now);
    PlanBounds(s, im);
    OkEnds(s, im);
    RangesStepApart(QueryOf(s.cfg, EndTime(s.cfg, start, im.now), im.allowIncomplete), Trunc(start), 0);
    forall i | 0 <= i < |s.table|
      ensures Trunc(s.table[i].ts + s.cfg.step) <= Trunc(start)
    {
      TruncMonotone(s.table[i].ts + s.cfg.step, start);
    }
  }

  // The state after an import that fails at range k of its plan.
  lemma AfterFailure(s: State, im: Import, k: nat) returns (before: seq<Sample>)
    requires Inv(s) && ImportEnds(s, im) && PlanEnds(s, im) && !(s.last.None? && im.readFails)
    requires k < |Plan(s, im)| && FailsAt(im.script, 0, k)
    ensures var t, r := DoImport(s, im).0, Plan(s, im)[k];
      && t.cfg == s.cfg && t.last.None? && t.table == before + Added(r, At(im.script, k))
      && Before(before, r.start) && LeadsBy(before, s.cfg.step, r.start)
  {
    hide Ranges, RunRanges, Plan, Added, Trunc, LastTimestamp;
    PlanAscends(s, im);
    PlanLeads(s, im);
    before := TableAtFailure(Plan(s, im), im.script, 0, s.table, s.cfg.step, k);
  }

  // The samples of the failing answer that were not stored.
  ghost predicate AskedAgain(t: State, answer: seq<Sample>, n: nat, now: int) {
    forall j :: n <= j < |answer| ==> Trunc(StartTime(t, now)) <= answer[j].ts
  }

  // Where the next import takes up, whenever that is: behind the last sample that
  // was stored of the failing answer, or no later than the range it answered.
  lemma TakesUp(t: State, before: seq<Sample>, r: Range, answer: seq<Sample>, n: nat, now: int)
    requires t.last.None? && n <= |answer| && t.table == before + answer[..n] && t.table != []
    requires ByTime(answer) && (forall i :: 0 <= i < |answer| ==> r.start <= answer[i].ts)
    requires Before(before, r.start) && LeadsBy(before, t.cfg.step, r.start)
    ensures if n == 0 then Trunc(StartTime(t, now)) <= r.start
            else StartTime(t, now) == answer[n - 1].ts + t.cfg.step
  {
    hide LastTimestamp, Trunc;
    var x := LastTimestamp(t.table).value;
    var i :| 0 <= i < |t.table| && t.table[i].ts == x;
    if n == 0 {
      assert t.table == before;
    } else {
      var last := answer[n - 1];
      assert t.table[|before| + n - 1] == last;
      if i >= |before| {
        assert t.table[i] == answer[i - |before|];
      }
    }
  }

  // After a failed import, every sample of the failing answer that was not stored
  // is asked for again exactly if nothing or all of it was stored, or the next
  // sample is no earlier than a step after the last one stored, cut to the minute.
  lemma NothingLostIff(s: State, im: Import, k: nat, now: int)
    requires Inv(s) && ImportEnds(s, im) && PlanEnds(s, im) && !(s.last.None? && im.readFails)
    requires k < |Plan(s, im)| && FailsAt(im.script, 0, k) && DoImport(s, im).0.table != []
    requires ByTime(Answer(Plan(s, im)[k], At(im.script, k)))
    ensures var t, r, o := DoImport(s, im).0, Plan(s, im)[k], At(im.script, k);
      var answer, n := Answer(r, o), |Added(r, o)|;
      && n <= |answer|
      && (AskedAgain(t, answer, n, now) <==>
            n == 0 || n == |answer| || Trunc(answer[n - 1].ts + s.cfg.step) <= answer[n].ts)
  {
    hide Ranges, RunRanges, Plan, DoImport, LastTimestamp, Trunc, AskedAgain, Answer, Added, Before, LeadsBy, ByTime,
         Known, Inv, PlanEnds, ImportEnds, FailsAt;
    var before := AfterFailure(s, im, k);
    var t, r, o := DoImport(s, im).0, Plan(s, im)[k], At(im.script, k);
    AddedIsPrefix(r, o);
    LostIff(t, before, r, Answer(r, o), |Added(r, o)|, now);
  }

  lemma LostIff(t: State, before: seq<Sample>, r: Range, answer: seq<Sample>, n: nat, now: int)
    requires t.last.None? && n <= |answer| && t.table == before + answer[..n] && t.table != []
    requires ByTime(answer) && (forall i :: 0 <= i < |answer| ==> r.start <= answer[i].ts)
    requires Before(before, r.start) && LeadsBy(before, t.cfg.step, r.start)
    ensures AskedAgain(t, answer, n, now) <==>
      n == 0 || n == |answer| || Trunc(answer[n - 1].ts + t.cfg.step) <= answer[n].ts
  {
    TakesUp(t, before, r, answer, n, now);
    AskedAgainIff(t, answer, n, now);
    hide AskedAgain, Before, LeadsBy, ByTime, StartTime, Trunc;
  }

  // As the answer is sorted, the first sample that was not stored decides.
  lemma AskedAgainIff(t: State, answer: seq<Sample>, n: nat, now: int)
    requires ByTime(answer) && n <= |answer|
    ensures AskedAgain(t, answer, n, now) <==> n == |answer| || Trunc(StartTime(t, now)) <= answer[n].ts
  {
    hide Trunc, StartTime;
  }

  lemma AddedIsPrefix(r: Range, o: Outcome)
    ensures |Added(r, o)| <= |Answer(r, o)| && Added(r, o) == Answer(r, o)[..|Added(r, o)|]
    ensures forall i :: 0 <= i < |Answer(r, o)| ==> r.start <= Answer(r, o)[i].ts <= r.end
  {
    hide Inside;
  }

  // For samples a step apart: exactly if the cut does not fall between two
  // samples with the same timestamp.
  lemma NothingLostUnlessTied(s: State, im: Import, k: nat, now: int)
    requires Inv(s) && ImportEnds(s, im) && PlanEnds(s, im) && !(s.last.None? && im.readFails)
    requires k < |Plan(s, im)| && FailsAt(im.script, 0, k) && DoImport(s, im).0.table != []
    requires Spaced(Answer(Plan(s, im)[k], At(im.script, k)), s.cfg.step)
    ensures var t, r, o := DoImport(s, im).0, Plan(s, im)[k], At(im.script, k);
      var answer, n := Answer(r, o), |Added(r, o)|;
      && n <= |answer|
      && (AskedAgain(t, answer, n, now) <==> n == 0 || n == |answer| || answer[n - 1].ts != answer[n].ts)
  {
    hide Ranges, RunRanges, Plan, DoImport, LastTimestamp, Trunc, AskedAgain, Answer, Added;
    var answer := Answer(Plan(s, im)[k], At(im.script, k));
    var n := |Added(Plan(s, im)[k], At(im.script, k))|;
    NothingLostIff(s, im, k, now);
    if 0 < n < |answer| {
      TruncMonotone(answer[n - 1].ts, answer[n - 1].ts + s.cfg.step);
    }
  }

  // Two series at one minute of which only the first was stored: the second is
  // not asked for again.
  lemma TiedSampleLost()
    ensures var s := State(Config(10 * MINUTE, MINUTE, 1, 0, None, 10 * MINUTE), None, [], []);
      var a, b := Sample("a", 95 * MINUTE), Sample("b", 95 * MINUTE);
      var im := Import(100 * MINUTE, true, [StoreFailed([a, b], 1)], false);
      && ImportEnds(s, im) && DoImport(s, im).0.table == [a]
      && forall now :: StartTime(DoImport(s, im).0, now) == 96 * MINUTE
  {
    var s := State(Config(10 * MINUTE, MINUTE, 1, 0, None, 10 * MINUTE), None, [], []);
    var a, b := Sample("a", 95 * MINUTE), Sample("b", 95 * MINUTE);
    var o := StoreFailed([a, b], 1);
    var im := Import(100 * MINUTE, true, [o], false);
    var q := Query(100 * MINUTE, 10 * MINUTE, MINUTE, 1, true);
    var r := Range(90 * MINUTE, 100 * MINUTE, MINUTE);
    assert StartTime(s, im.now) == 90 * MINUTE && QueryOf(s.cfg, im.now, true) == q;
    assert IsLast(q, 90 * MINUTE) && !Stops(q, 90 * MINUTE);
    assert Plan(s, im) == [r];
    assert Inside(r, [a, b]) == [a, b] by {
      assert [a, b][1..] == [b] && [b][1..] == [];
      assert Inside(r, [b]) == [b] + Inside(r, []);
    }
    assert Added(r, o) == [a];
    RunStep([r], im.script, 0, []);
  }
}
