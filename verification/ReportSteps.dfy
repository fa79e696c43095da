// What one reconcile does, told from its circumstances alone, and what becomes of
// reports that run once.
module ReportSteps {
  import opened Options
  import opened Reports
  import opened ReportLaws

  // ------------------------------------------------------- what stands in the way

  // The report has been finished and its end has not been moved since.
  ghost predicate Over(spec: Spec, st: Status) {
    && st.cond.Some? && !st.cond.value.running && st.cond.value.reason == Finished
    && (spec.schedule.RunOnce?
        || (spec.reportingEnd.Some? && (st.last.None? || spec.reportingEnd.value <= st.last.value)))
  }

  ghost predicate WellFormed(spec: Spec, turn: Turn) {
    && turn.dependenciesOk
    && (spec.reportingStart.Some? && spec.reportingEnd.Some? ==> spec.reportingStart.value < spec.reportingEnd.value)
    && (spec.runImmediately ==> spec.reportingEnd.Some?)
  }

  // The data source says that it has imported from start or before to end or
  // after.
  ghost predicate SaysImported(w: Option<Window>, start: int, end: int) {
    exists a, b :: w == Some(Window(Some(a), Some(b))) && a <= start && end <= b
  }

  // The clock has passed end; every data source says that it has imported all of
  // it; every sub-report that has reported has reported up to end.
  ghost predicate DataIsThere(turn: Turn, start: int, end: int) {
    && end <= turn.now
    && (forall i :: 0 <= i < |turn.sources| ==> SaysImported(turn.sources[i], start, end))
    && (forall i :: 0 <= i < |turn.subReports| && turn.subReports[i].Some? ==> end <= turn.subReports[i].value)
  }

  ghost predicate Goes(spec: Spec, st: Status, turn: Turn, start: int, end: int) {
    && !Over(spec, st) && WellFormed(spec, turn) && turn.tableOk
    && (spec.runImmediately || DataIsThere(turn, start, end))
    && turn.runningWriteOk && turn.renderOk
  }

  lemma CoversIs(w: Option<Window>, p: Period)
    ensures Covers(w, p) <==> SaysImported(w, p.start, p.end)
  {
    if Covers(w, p) {
      assert w == Some(Window(Some(w.value.from.value), Some(w.value.to.value)));
    }
  }

  lemma MetIsThere(turn: Turn, p: Period)
    ensures p.end <= turn.now && Met(turn, p) <==> DataIsThere(turn, p.start, p.end)
  {
    forall i | 0 <= i < |turn.sources|
      ensures Covers(turn.sources[i], p) <==> SaysImported(turn.sources[i], p.start, p.end)
    {
      CoversIs(turn.sources[i], p);
    }
    hide Covers, SaysImported;
    assert forall i :: 0 <= i < |turn.subReports| ==>
      (Reported(turn.subReports[i], p) <==> (turn.subReports[i].Some? ==> p.end <= turn.subReports[i].value));
  }

  // Periods start and end on whole milliseconds, cut off downwards.
  lemma TruncMsIs(t: int)
    ensures TruncMs(t) <= t < TruncMs(t) + 1_000_000 && TruncMs(t) % 1_000_000 == 0
  {
  }

  // A scheduled report generates a period in exactly these circumstances, and it
  // is the one from the starting time to the next activation or reportingEnd.
  lemma ScheduledGeneratesIff(spec: Spec, st: Status, turn: Turn)
    requires spec.schedule.Every? && Ticks(spec.schedule.next) && OnSeconds(From(spec, st, turn.now))
    ensures var next, from, g := spec.schedule.next, From(spec, st, turn.now), Reconcile(spec, st, turn).generated;
      var end := if spec.reportingEnd.Some? && spec.reportingEnd.value < next(from) then spec.reportingEnd.value
                 else next(from);
      && (g.Some? <==> Goes(spec, st, turn, from, end) && (next(from) == ZERO_TIME ==> from == ZERO_TIME))
      && (g.Some? ==> g.value == Period(from, end))
  {
    var next, from := spec.schedule.next, From(spec, st, turn.now);
    GeneratesIff(spec, st, turn);
    if WellFormed(spec, turn) {
      PanicsWhenExhausted(spec, st, turn);
    }
    TruncMsOfWhole(from);
    TruncMsOfWhole(next(from));
    var end := if spec.reportingEnd.Some? && spec.reportingEnd.value < next(from) then spec.reportingEnd.value
               else next(from);
    MetIsThere(turn, Period(from, end));
    hide TruncMs, Met, DataIsThere, Reconcile;
  }

  // A report without a schedule generates the period that its spec names.
  lemma OnceGeneratesIff(spec: Spec, st: Status, turn: Turn)
    requires spec.schedule.RunOnce?
    ensures var g := Reconcile(spec, st, turn).generated;
      && (g.Some? <==>
            && spec.reportingStart.Some? && spec.reportingEnd.Some?
            && Goes(spec, st, turn, spec.reportingStart.value, spec.reportingEnd.value))
      && (g.Some? ==> g.value == Period(spec.reportingStart.value, spec.reportingEnd.value))
  {
    GeneratesIff(spec, st, turn);
    if spec.reportingStart.Some? && spec.reportingEnd.Some? {
      MetIsThere(turn, Period(spec.reportingStart.value, spec.reportingEnd.value));
    }
    hide Met, DataIsThere, Reconcile;
  }

  // ----------------------------------------------------------- what is recorded

  // Only a generation that succeeded and whose status was written is recorded; it
  // is then recorded up to its end. After one that failed the last and the next
  // report time are those that its period was computed from, and the condition
  // says so if that could be written.
  lemma OnlySuccessIsRecorded(spec: Spec, st: Status, turn: Turn)
    ensures var r := Reconcile(spec, st, turn);
      && (r.status.last != st.last ==> r.generated.Some? && turn.generateOk && turn.finalWriteOk)
      && (r.generated.Some? && turn.generateOk && turn.finalWriteOk ==> r.status.last == Some(r.generated.value.end))
      && (r.generated.Some? && !(turn.generateOk && turn.finalWriteOk) ==>
            && r.status.last == st.last
            && (r.status.next == st.next
                || (st.last.None? && spec.reportingStart.None? && r.status.next == Some(r.generated.value.start))))
      && (r.generated.Some? && !turn.generateOk && turn.failureWriteOk ==>
            r.status.cond == Some(Condition(false, GenerateFailed)))
  {
  }

  // After a success that ends at reportingEnd the report is finished; after any
  // other the next report time is the activation after the one recorded.
  lemma SuccessLooksAhead(spec: Spec, st: Status, turn: Turn)
    requires spec.schedule.Every? && Ticks(spec.schedule.next)
    requires Reconcile(spec, st, turn).generated.Some? && turn.generateOk && turn.finalWriteOk
    ensures var r := Reconcile(spec, st, turn);
      var end := r.generated.value.end;
      if spec.reportingEnd == Some(end) then r.status.cond == Some(Condition(false, Finished))
      else
        r.status.next == Some(spec.schedule.next(end)) && r.status.cond == Some(Condition(false, Waiting))
  {
    TruncMsOfWhole(spec.schedule.next(Reconcile(spec, st, turn).generated.value.end));
    hide TruncMs, GetPeriod, Met;
  }

  // What could not be written is not on record: if no write of the status succeeds
  // only a new table is, with the start found for its first period.
  lemma WritesAreNeeded(spec: Spec, st: Status, turn: Turn)
    requires !turn.statusWriteOk && !turn.runningWriteOk
    ensures var r := Reconcile(spec, st, turn);
      && r.status.last == st.last && r.status.cond == st.cond && (st.hasTable ==> r.status == st)
      && (r.status.next == st.next || (st.last.None? && spec.reportingStart.None? && st.next.None?))
  {
    var r := GetPeriod(spec, st, turn.now);
    assert r.Found? ==> r.status == st || (r.status == st.(next := r.status.next)
                                           && st.last.None? && spec.reportingStart.None? && st.next.None?);
    hide GetPeriod, Met;
  }

  // A table that was found or made is on record, and stays there.
  lemma TableIsRecorded(spec: Spec, st: Status, turn: Turn)
    ensures var r := Reconcile(spec, st, turn);
      && (st.hasTable || r.generated.Some? ==> r.status.hasTable)
      && (r.status.hasTable && !st.hasTable ==> turn.tableOk && !Over(spec, st) && WellFormed(spec, turn))
  {
    var r := GetPeriod(spec, st, turn.now);
    assert r.Found? ==> r.status.hasTable == st.hasTable;
    hide GetPeriod, Met;
  }

  // The condition that a reconcile leaves behind tells what happened.
  ghost predicate Explains(spec: Spec, turn: Turn, generated: Option<Period>, c: Condition) {
    match c.reason
    case Scheduled => c.running && WellFormed(spec, turn) && turn.tableOk && !spec.runImmediately
    case RunImmediately => c.running && WellFormed(spec, turn) && turn.tableOk && spec.runImmediately
    case Invalid => !c.running && generated.None? && !WellFormed(spec, turn)
    case Unmet => !c.running && generated.None? && WellFormed(spec, turn) && !spec.runImmediately
    case Waiting => !c.running && WellFormed(spec, turn) && (generated.None? || turn.generateOk)
    case GenerateFailed => !c.running && generated.Some? && !turn.generateOk
    case Finished => !c.running && generated.Some? && turn.generateOk && spec.reportingEnd == Some(generated.value.end)
  }

  lemma ConditionExplains(spec: Spec, st: Status, turn: Turn)
    ensures var r := Reconcile(spec, st, turn);
      r.status.cond != st.cond ==>
        r.status.cond.Some? && Explains(spec, turn, r.generated, r.status.cond.value)
  {
    var r := GetPeriod(spec, st, turn.now);
    assert r.Found? ==> r.status.cond == st.cond;
    hide GetPeriod, Met;
  }

  // --------------------------------------------------------- reports that run once

  // Whatever happened, each period generated was the one of the spec, and once it
  // has been recorded the report is finished.
  ghost predicate OnceInv(h: History, start: int, end: int) {
    && h.spec.schedule.RunOnce? && h.spec.reportingStart == Some(start) && h.spec.reportingEnd == Some(end)
    && (forall i :: 0 <= i < |h.generated| ==> h.generated[i] == Period(start, end))
    && (h.status.last.Some? ==> h.status.last == Some(end) && IsFinishedCond(h.status) && Period(start, end) in h.done)
    && (h.status.last.None? ==> !IsFinishedCond(h.status))
  }

  lemma OnceStep(h: History, start: int, end: int, turn: Turn)
    requires OnceInv(h, start, end)
    ensures OnceInv(Apply(h, Reconciles(turn)), start, end)
    ensures h.status.last.Some? ==> Apply(h, Reconciles(turn)) == h
  {
    OnceGeneratesIff(h.spec, h.status, turn);
    OnlySuccessIsRecorded(h.spec, h.status, turn);
    hide Goes;
  }

  lemma {:induction false} OnceRuns(h: History, start: int, end: int, evs: seq<Event>)
    requires OnceInv(h, start, end) && OnlyReconciles(evs)
    ensures OnceInv(Run(h, evs), start, end)
    ensures h.status.last.Some? ==> Run(h, evs) == h
    decreases |evs|
  {
    hide OnceInv, Reconcile;
    if evs != [] {
      OnceStep(h, start, end, evs[0].turn);
      OnceRuns(Apply(h, evs[0]), start, end, evs[1..]);
    }
  }

  // Once finished it stays so, even if its end is moved.
  lemma {:induction false} OnceForGood(h: History, evs: seq<Event>)
    requires h.spec.schedule.RunOnce? && IsFinishedCond(h.status)
    ensures Run(h, evs).generated == h.generated && Run(h, evs).status == h.status
    decreases |evs|
  {
    if evs != [] {
      OnceForGood(Apply(h, evs[0]), evs[1..]);
    }
  }
}
