/**
 The virtual printer (src/stub/virtual-printer.ts): a state machine driven by commands and ticks that
 emits a status report on every observable change, except that one FINISH report can be withheld to
 reproduce a lost completion. Progress figures, temperatures, trays and HMS codes are left out.
 */
module PrinterStub {
  import opened Wrappers

  datatype GcodeState = Idle | Prepare | Running | Pause | Finish | Fail
  datatype Timing = Immediately | NextPrint | OnFinish

  /** What a report shows of the printer. */
  datatype Report = Report(state: GcodeState, subtask: string)

  datatype ActiveJob = ActiveJob(subtask: string, totalMinutes: int)

  datatype Printer = Printer(state: GcodeState, remaining: int, job: Option<ActiveJob>, fault: Option<Timing>,
                             suppressed: bool)

  const NEW_PRINTER := Printer(Idle, 0, None, None, false)
  const DEFAULT_MINUTES := 10

  datatype Command =
    | Tick
    | ForceFinish
    | ForceFail
    | InjectFault(timing: Timing)
    | PushAll
    | SetAms
    | SetPrintMinutes(minutes: int)
    | Reset
    | Stop

  /** A reaction: the new printer and the reports it emitted, in order. */
  datatype Reaction = Reaction(printer: Printer, reports: seq<Report>)

  function Subtask(p: Printer): string { if p.job.Some? then p.job.value.subtask else "" }

  function BuildReport(p: Printer): Report { Report(p.state, Subtask(p)) }

  function Published(p: Printer): seq<Report> { if p.suppressed then [] else [BuildReport(p)] }

  predicate Busy(p: Printer) { p.state == Running || p.state == Prepare }

  predicate Terminal(s: GcodeState) { s == Finish || s == Fail }

  /** The failure is reported twice: by the transition and once more. */
  function Failing(p: Printer): Reaction {
    var q := p.(remaining := 0, state := Fail);
    Reaction(q, Published(q) + Published(q))
  }

  function Finishing(p: Printer): Reaction {
    var q := p.(remaining := 0, state := Finish);
    if p.fault == Some(OnFinish) then Reaction(q.(fault := None, suppressed := true), [])
    else Reaction(q, Published(q))
  }

  function React(p: Printer, c: Command): Reaction {
    match c
    case Tick =>
      if p.state != Running then Reaction(p, [])
      else
        var q := p.(remaining := if p.remaining - 1 < 0 then 0 else p.remaining - 1);
        if q.remaining <= 0 then Finishing(q) else Reaction(q, Published(q))
    case ForceFinish => if Busy(p) then Finishing(p) else Reaction(p, [])
    case ForceFail => Failing(p)
    case InjectFault(timing) =>
      if timing != Immediately then Reaction(p.(fault := Some(timing)), [])
      else if Busy(p) then Failing(p)
      else Reaction(p, Published(p))
    case PushAll => var q := p.(suppressed := false); Reaction(q, [BuildReport(q)])
    case SetAms => Reaction(p, Published(p))
    case SetPrintMinutes(minutes) =>
      if p.job.None? then Reaction(p, [])
      else Reaction(p.(job := Some(p.job.value.(totalMinutes := minutes)),
                       remaining := if p.state == Running then minutes else p.remaining), [])
    case Reset =>
      var q := p.(job := None, remaining := 0, suppressed := false, state := Idle);
      Reaction(q, [BuildReport(q)])
    case Stop => if p.state == Running || p.state == Pause then Failing(p) else Reaction(p, [])
  }

  /** A project_file command; `None` when it is rejected. */
  function Received(p: Printer, subtask: string, mappingLength: nat): Option<Reaction> {
    if Busy(p) || mappingLength != 4 then None
    else
      var prepared := p.(job := Some(ActiveJob(subtask, DEFAULT_MINUTES)), suppressed := false, state := Prepare);
      var running := prepared.(state := Running, remaining := DEFAULT_MINUTES);
      var shown := [BuildReport(prepared), BuildReport(running)];
      if p.fault == Some(NextPrint) then
        var f := Failing(running.(fault := None));
        Some(Reaction(f.printer, shown + f.reports))
      else Some(Reaction(running, shown))
  }

  class VirtualPrinter {
    var gcodeState: GcodeState
    var mcRemainingTime: int
    var activeJob: Option<ActiveJob>
    var pendingFault: Option<Timing>
    var finishReportSuppressed: bool
    /** Everything emitted so far. */
    var emitted: seq<Report>

    constructor ()
      ensures Snap() == NEW_PRINTER && emitted == []
    {
      gcodeState, mcRemainingTime, activeJob := Idle, 0, None;
      pendingFault, finishReportSuppressed, emitted := None, false, [];
    }

    function Snap(): Printer
      reads this
    {
      Printer(gcodeState, mcRemainingTime, activeJob, pendingFault, finishReportSuppressed)
    }

    method Publish()
      modifies this`emitted
      ensures emitted == old(emitted) + Published(Snap())
    {
      if !finishReportSuppressed { emitted := emitted + [BuildReport(Snap())]; }
    }

    method Transition(next: GcodeState, silent: bool := false)
      modifies this`gcodeState, this`emitted
      ensures gcodeState == next && emitted == old(emitted) + if silent then [] else Published(Snap())
    {
      gcodeState := next;
      if !silent { Publish(); }
    }

    method Fails()
      modifies this
      ensures Reaction(Snap(), emitted)
              == Reaction(Failing(old(Snap())).printer, old(emitted) + Failing(old(Snap())).reports)
    {
      mcRemainingTime := 0;
      Transition(Fail);
      Publish();
    }

    method HandleFinish()
      modifies this
      ensures Reaction(Snap(), emitted)
              == Reaction(Finishing(old(Snap())).printer, old(emitted) + Finishing(old(Snap())).reports)
    {
      var suppress := pendingFault == Some(OnFinish);
      mcRemainingTime := 0;
      Transition(Finish, suppress);
      if suppress {
        pendingFault := None;
        finishReportSuppressed := true;
      }
    }

    /** The commands of the MQTT side and of the control back door. */
    method Obey(c: Command)
      modifies this
      ensures Reaction(Snap(), emitted)
              == Reaction(React(old(Snap()), c).printer, old(emitted) + React(old(Snap()), c).reports)
    {
      match c {
        case Tick =>
          if gcodeState == Running {
            mcRemainingTime := if mcRemainingTime - 1 < 0 then 0 else mcRemainingTime - 1;
            if mcRemainingTime <= 0 { HandleFinish(); } else { Publish(); }
          }
        case ForceFinish => if Busy(Snap()) { HandleFinish(); }
        case ForceFail => Fails();
        case InjectFault(timing) =>
          if timing != Immediately { pendingFault := Some(timing); }
          else if Busy(Snap()) { Fails(); }
          else { Publish(); }
        case PushAll =>
          finishReportSuppressed := false;
          Publish();
        case SetAms => Publish();
        case SetPrintMinutes(minutes) =>
          if activeJob.Some? {
            activeJob := Some(activeJob.value.(totalMinutes := minutes));
            if gcodeState == Running { mcRemainingTime := minutes; }
          }
        case Reset =>
          activeJob, mcRemainingTime, finishReportSuppressed := None, 0, false;
          Transition(Idle);
        case Stop => if gcodeState == Running || gcodeState == Pause { Fails(); }
      }
    }

    method ReceiveProjectFile(subtask: string, mappingLength: nat) returns (accepted: bool)
      modifies this
      ensures accepted == Received(old(Snap()), subtask, mappingLength).Some?
      ensures !accepted ==> Snap() == old(Snap()) && emitted == old(emitted)
      ensures accepted ==> var r := Received(old(Snap()), subtask, mappingLength).value;
                           Snap() == r.printer && emitted == old(emitted) + r.reports
    {
      if Busy(Snap()) || mappingLength != 4 { return false; }
      activeJob := Some(ActiveJob(subtask, DEFAULT_MINUTES));
      finishReportSuppressed := false;
      Transition(Prepare);
      mcRemainingTime := DEFAULT_MINUTES;
      Transition(Running);
      if pendingFault == Some(NextPrint) {
        pendingFault := None;
        Fails();
      }
      accepted := true;
    }
  }

  // ---- what the reports say ----

  /** Every report shows the job that the printer holds before or after the command. */
  lemma ReportsOwnJob(p: Printer, c: Command)
    ensures forall r :: r in React(p, c).reports ==> r.subtask == Subtask(p) || r.subtask == ""
    ensures Subtask(React(p, c).printer) == Subtask(p) || Subtask(React(p, c).printer) == ""
  {
  }

  lemma ReceivedReportsOwnJob(p: Printer, subtask: string, mappingLength: nat)
    requires Received(p, subtask, mappingLength).Some?
    ensures var r := Received(p, subtask, mappingLength).value;
            Subtask(r.printer) == subtask && forall x :: x in r.reports ==> x.subtask == subtask
  {
  }

  function Obeyed(p: Printer, cs: seq<Command>): Printer
    decreases |cs|
  {
    if |cs| == 0 then p else React(Obeyed(p, cs[..|cs| - 1]), cs[|cs| - 1]).printer
  }

  /** A print that ends is either reported at once, or withheld with the printer still in its final state. */
  lemma EndsReportedOrWithheld(p: Printer, c: Command)
    requires !p.suppressed && !Terminal(p.state) && Terminal(React(p, c).printer.state)
    ensures var r := React(p, c);
            && Subtask(r.printer) == Subtask(p)
            && (r.printer.suppressed ==> r.printer.state == Finish && r.reports == [])
            && (!r.printer.suppressed ==> Report(r.printer.state, Subtask(p)) in r.reports)
  {
    var r := React(p, c);
    if !r.printer.suppressed {
      assert BuildReport(r.printer) == Report(r.printer.state, Subtask(p));
      assert r.reports[0] == BuildReport(r.printer);
    }
  }

  /** A withheld end is not lost: whatever happens short of a reset, a later full poll still reports a
      final state of that very job. */
  lemma {:induction false} PollSurfacesWithheldEnd(p: Printer, cs: seq<Command>)
    requires Terminal(p.state) && p.job.Some?
    requires forall i :: 0 <= i < |cs| ==> !cs[i].Reset?
    ensures var q := Obeyed(p, cs);
            && Terminal(q.state) && q.job.Some? && Subtask(q) == Subtask(p)
            && exists s :: Terminal(s) && React(q, PushAll).reports == [Report(s, Subtask(p))]
    decreases |cs|
  {
    if |cs| > 0 {
      PollSurfacesWithheldEnd(p, cs[..|cs| - 1]);
    }
    assert React(Obeyed(p, cs), PushAll).reports == [Report(Obeyed(p, cs).state, Subtask(p))];
  }
}
