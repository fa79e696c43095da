// The reconcile loop of a Report: compute the period, wait, check that the data
// is there, generate, record, finish. Times are integers (nanoseconds).
module Reports {
  import opened Options

  const MILLISECOND: int := 1_000_000
  const SECOND: int := 1_000_000_000

  // next is schedule.Next: the next activation after the given time, or the zero
  // time if there is none.
  datatype Schedule = RunOnce | BadSchedule | Every(next: int -> int)

  datatype Spec = Spec(schedule: Schedule, reportingStart: Option<int>, reportingEnd: Option<int>,
                       runImmediately: bool)

  datatype Reason = Scheduled | RunImmediately | Waiting | Finished | Invalid | Unmet | GenerateFailed

  // The Running condition: its status and reason.
  datatype Condition = Condition(running: bool, reason: Reason)

  datatype Status = Status(last: Option<int>, next: Option<int>, cond: Option<Condition>, hasTable: bool)

  datatype Period = Period(start: int, end: int)

  // What a Prometheus data source says it has imported.
  datatype Window = Window(from: Option<int>, to: Option<int>)

  // What one reconcile meets: the clock, whether the query and its dependencies
  // are in order, what they have to offer, and which of the steps succeed.
  // sources has None for a data source whose import status is not set yet, and
  // subReports the lastReportTime of the reports this one depends on.
  datatype Turn = Turn(now: int, dependenciesOk: bool, sources: seq<Option<Window>>, subReports: seq<Option<int>>,
                       tableOk: bool, statusWriteOk: bool, runningWriteOk: bool, renderOk: bool, generateOk: bool,
                       failureWriteOk: bool, finalWriteOk: bool)

  function TruncMs(t: int): int {
    t - t % MILLISECOND
  }

  predicate IsFinished(spec: Spec, st: Status) {
    st.cond.Some? && st.cond.value.reason == Finished && !st.cond.value.running
    && (spec.schedule.RunOnce?
        || (spec.reportingEnd.Some? && !(st.last.Some? && spec.reportingEnd.value > st.last.value)))
  }

  predicate IsValid(spec: Spec, turn: Turn) {
    && !(spec.reportingStart.Some? && spec.reportingEnd.Some? && spec.reportingStart.value >= spec.reportingEnd.value)
    && !(spec.reportingEnd.None? && spec.runImmediately)
    && turn.dependenciesOk
  }

  function NextPeriod(next: int -> int, t: int): Period {
    Period(TruncMs(t), TruncMs(next(t)))
  }

  // getReportPeriod: the period and the status with nextReportTime filled in, an
  // error, or the panic for a period that ends before it starts.
  datatype PeriodResult = Found(period: Period, status: Status) | PeriodError | Panic

  function RawPeriod(spec: Spec, st: Status, now: int): PeriodResult {
    match spec.schedule
    case BadSchedule => PeriodError
    case RunOnce =>
      if spec.reportingStart.None? || spec.reportingEnd.None? then PeriodError
      else Found(Period(spec.reportingStart.value, spec.reportingEnd.value), st)
    case Every(next) =>
      if st.last.Some? then Found(NextPeriod(next, st.last.value), st)
      else if spec.reportingStart.Some? then Found(NextPeriod(next, spec.reportingStart.value), st)
      else if st.next.Some? then Found(NextPeriod(next, st.next.value), st)
      else
        var p := NextPeriod(next, NextPeriod(next, now).end);
        Found(p, st.(next := Some(p.start)))
  }

  function Clamp(p: Period, end: Option<int>): Period {
    if end.Some? && p.end > end.value then p.(end := end.value) else p
  }

  function GetPeriod(spec: Spec, st: Status, now: int): PeriodResult {
    var r := RawPeriod(spec, st, now);
    if !r.Found? then r
    else if r.period.start > r.period.end then Panic
    else Found(Clamp(r.period, spec.reportingEnd), r.status)
  }

  // The data source has said that it covers the period.
  predicate Covers(w: Option<Window>, p: Period) {
    w.Some? && w.value.from.Some? && w.value.from.value <= p.start
    && w.value.to.Some? && p.end <= w.value.to.value
  }

  // A sub-report holds the period back only if it has reported, and not so far.
  predicate Reported(last: Option<int>, p: Period) {
    last.None? || last.value >= p.end
  }

  predicate Met(turn: Turn, p: Period) {
    && (forall i :: 0 <= i < |turn.sources| ==> Covers(turn.sources[i], p))
    && (forall i :: 0 <= i < |turn.subReports| ==> Reported(turn.subReports[i], p))
  }

  // The stored status after a reconcile, and the period that was handed to
  // GenerateReport, if any.
  datatype Reconciled = Reconciled(status: Status, generated: Option<Period>)

  function Wrote(ok: bool, before: Status, after: Status): Status {
    if ok then after else before
  }

  // The status once the period has been generated.
  function Recorded(spec: Spec, st: Status, p: Period): Status {
    var done := st.(last := Some(p.end));
    if spec.reportingEnd == Some(p.end) then done.(cond := Some(Condition(false, Finished)))
    else if spec.schedule.Every? then
      done.(next := Some(NextPeriod(spec.schedule.next, p.end).end), cond := Some(Condition(false, Waiting)))
    else done
  }

  // From the Running condition on.
  function Generate(spec: Spec, stored: Status, local: Status, p: Period, turn: Turn): Reconciled {
    var reason := if spec.runImmediately then RunImmediately else Scheduled;
    var running := local.(cond := Some(Condition(true, reason)));
    if !turn.runningWriteOk then Reconciled(stored, None)
    else if !turn.renderOk then Reconciled(running, None)
    else if !turn.generateOk then
      Reconciled(Wrote(turn.failureWriteOk, running, running.(cond := Some(Condition(false, GenerateFailed)))), Some(p))
    else
      Reconciled(Wrote(turn.finalWriteOk, running, Recorded(spec, running, p)), Some(p))
  }

  // runReport.
  function Reconcile(spec: Spec, st: Status, turn: Turn): Reconciled {
    if IsFinished(spec, st) then Reconciled(st, None)
    else if !IsValid(spec, turn) then
      Reconciled(Wrote(turn.statusWriteOk, st, st.(cond := Some(Condition(false, Invalid)))), None)
    else
      var r := GetPeriod(spec, st, turn.now);
      if !r.Found? || !turn.tableOk then Reconciled(st, None)
      else
        var local := r.status.(hasTable := true);
        var stored := if st.hasTable then st else local;
        if !spec.runImmediately && r.period.end > turn.now then
          if st.cond == Some(Condition(true, Waiting)) then Reconciled(stored, None)
          else Reconciled(Wrote(turn.statusWriteOk, stored, local.(cond := Some(Condition(false, Waiting)))), None)
        else if !spec.runImmediately && !Met(turn, r.period) then
          Reconciled(Wrote(turn.statusWriteOk, stored, local.(cond := Some(Condition(false, Unmet)))), None)
        else Generate(spec, stored, local, r.period, turn)
  }

  // --------------------------------------------------------------- the object

  // A Report resource as the API server stores it.
  class Report {
    var spec: Spec
    var status: Status

    constructor (spec: Spec)
      ensures this.spec == spec && status == Status(None, None, None, false)
    {
      this.spec, this.status := spec, Status(None, None, None, false);
    }

    // The working copy is local; a write that succeeds replaces the stored one.
    method RunReport(turn: Turn) returns (generated: Option<Period>)
      modifies this`status
      ensures Reconciled(status, generated) == Reconcile(spec, old(status), turn)
    {
      hide GetPeriod, RawPeriod;
      generated := None;
      if IsFinished(spec, status) {
        return;
      }
      if !IsValid(spec, turn) {
        if turn.statusWriteOk {
          status := status.(cond := Some(Condition(false, Invalid)));
        }
        return;
      }
      var r := GetPeriod(spec, status, turn.now);
      if !r.Found? {
        return;
      }
      var period, report := r.period, r.status;
      var runningCond := status.cond;
      // The table is looked up, or created.
      if !turn.tableOk {
        return;
      }
      if !status.hasTable {
        report := report.(hasTable := true);
        status := report;
      }
      report := report.(hasTable := true);
      if !spec.runImmediately {
        if period.end > turn.now {
          if runningCond != Some(Condition(true, Waiting)) && turn.statusWriteOk {
            status := report.(cond := Some(Condition(false, Waiting)));
          }
          return;
        }
        var sources := UnmetSources(turn.sources, period);
        var reports := UnmetReports(turn.subReports, period);
        if sources || reports {
          if turn.statusWriteOk {
            status := report.(cond := Some(Condition(false, Unmet)));
          }
          return;
        }
      }
      generated := FinishRun(report, period, turn);
    }

    method FinishRun(local: Status, period: Period, turn: Turn) returns (generated: Option<Period>)
      modifies this`status
      ensures Reconciled(status, generated) == Generate(spec, old(status), local, period, turn)
    {
      generated := None;
      var report := local;
      if !turn.runningWriteOk {
        return;
      }
      report := report.(cond := Some(Condition(true, if spec.runImmediately then RunImmediately else Scheduled)));
      status := report;
      if !turn.renderOk {
        return;
      }
      generated := Some(period);
      if !turn.generateOk {
        if turn.failureWriteOk {
          status := report.(cond := Some(Condition(false, GenerateFailed)));
        }
        return;
      }
      report := report.(last := Some(period.end));
      if spec.reportingEnd.Some? && spec.reportingEnd.value == period.end {
        report := report.(cond := Some(Condition(false, Finished)));
      } else if spec.schedule.Every? {
        var nextPeriod := NextPeriod(spec.schedule.next, period.end);
        report := report.(next := Some(nextPeriod.end), cond := Some(Condition(false, Waiting)));
      }
      if turn.finalWriteOk {
        status := report;
      }
    }
  }

  // Some data source has not said that it covers the period.
  method UnmetSources(sources: seq<Option<Window>>, p: Period) returns (unmet: bool)
    ensures unmet <==> exists i :: 0 <= i < |sources| && !Covers(sources[i], p)
  {
    var unstarted, unmetStart, unmetEnd := 0, 0, 0;
    for i := 0 to |sources|
      invariant unstarted >= 0 && unmetStart >= 0 && unmetEnd >= 0
      invariant unstarted + unmetStart + unmetEnd > 0 <==> exists j :: 0 <= j < i && !Covers(sources[j], p)
    {
      var w := sources[i];
      if w.None? {
        unstarted := unstarted + 1;
      } else {
        if w.value.from.None? || p.start < w.value.from.value {
          unmetStart := unmetStart + 1;
        }
        if w.value.to.None? || p.end > w.value.to.value {
          unmetEnd := unmetEnd + 1;
        }
      }
    }
    unmet := unstarted != 0 || unmetStart != 0 || unmetEnd != 0;
  }

  // Some sub-report has reported, but not up to the end of the period.
  method UnmetReports(subReports: seq<Option<int>>, p: Period) returns (unmet: bool)
    ensures unmet <==> exists i :: 0 <= i < |subReports| && !Reported(subReports[i], p)
  {
    var count := 0;
    for i := 0 to |subReports|
      invariant count >= 0 && (count > 0 <==> exists j :: 0 <= j < i && !Reported(subReports[j], p))
    {
      if subReports[i].Some? && subReports[i].value < p.end {
        count := count + 1;
      }
    }
    unmet := count != 0;
  }
}
