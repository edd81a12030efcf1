/**
 * Shutdown cannot get stuck: every stopping state can run to the return of Service.Run, and once the
 * listeners are closed no step but the reporter's ticker takes the run further from its end.
 */
module ServiceProgress {
  import opened ServiceRun
  import opened ServiceAccounts
  import opened ServiceShutdown

  function MainRank(cfg: Config, m: Main): int {
    var n := |cfg.inbounds|;
    match m
    case Returned(_) => 0
    case WaitingConnections => 1
    case WaitingLoops => 2
    case ShuttingAdmin => 3
    case Closing(k) => 4 + n - k
    case Cancelling => 5 + n
    case Selecting => 6 + n
    case StartingReporter => 7 + n
    case StartingAdmin => 8 + n
    case Binding(i) => 9 + n + n - i
  }

  /** Steps an accept loop can still take, once its listener is closed, before it has finished. */
  function LoopRank(l: Loop): nat {
    match l
    case NotStarted => 3
    case Accepting => 3
    case Holding => 6
    case Rejecting => 4
    case Admitted => 5
    case Tracked => 4
    case Failed => 2
    case Finishing(_) => 1
    case Finished(_) => 0
  }

  function LoopRanks(ls: seq<Loop>): (n: nat) {
    if ls == [] then 0 else LoopRanks(ls[..|ls| - 1]) + LoopRank(ls[|ls| - 1])
  }

  function AdminRank(a: Admin): nat {
    match a
    case AdminOff => 3
    case AdminServing => 3
    case AdminFailed => 2
    case AdminFinishing(_) => 1
    case AdminFinished(_) => 0
  }

  function ReporterRank(r: Reporter): nat {
    match r
    case ReporterOff => 4
    case ReporterBusy => 4
    case ReporterIdle => 3
    case ReporterFlushing => 2
    case ReporterFinishing => 1
    case ReporterFinished => 0
  }

  function Measure(cfg: Config, s: State): int {
    MainRank(cfg, s.main) + LoopRanks(s.loops) + AdminRank(s.admin) + ReporterRank(s.reporter)
  }

  lemma {:induction false} LoopRanksUpdate(ls: seq<Loop>, k: nat, l: Loop)
    requires k < |ls|
    ensures LoopRanks(ls[k := l]) == LoopRanks(ls) - LoopRank(ls[k]) + LoopRank(l)
  {
    var n := |ls| - 1;
    if k == n {
      assert ls[k := l][..n] == ls[..n];
    } else {
      LoopRanksUpdate(ls[..n], k, l);
      assert ls[k := l][..n] == ls[..n][k := l];
    }
  }

  /** A run is ending: cancelled, with an error waiting, or already past the select. */
  predicate Ending(s: State) {
    s.cancelled || s.errors > 0 || Stopping(s.main)
  }

  // ----- One step closer -----

  /** What an accept loop does next, its listener being closed. */
  function LoopNext(l: Loop): LoopAct
    requires LoopHas(l, Running)
  {
    match l
    case Accepting => AcceptFails
    case Holding => TryAcquire
    case Rejecting => CountRejected
    case Admitted => AddConnection
    case Tracked => Spawn
    case Failed => SendError
    case Finishing(_) => LoopDone
  }

  lemma {:induction false} SomeLoopRuns(ls: seq<Loop>) returns (i: nat)
    requires CountLoops(ls, Running) > 0
    ensures i < |ls| && LoopHas(ls[i], Running)
  {
    i := |ls| - 1;
    if !LoopHas(ls[i], Running) { i := SomeLoopRuns(ls[..i]); }
  }

  lemma LoopStepDescends(cfg: Config, s: State, i: nat, a: LoopAct)
    requires Shaped(cfg, s) && LoopEnabled(cfg, s, i, a) && a != Accept
    ensures Measure(cfg, ApplyLoop(cfg, s, i, a)) < Measure(cfg, s)
  {
    LoopRanksUpdate(s.loops, i, ApplyLoop(cfg, s, i, a).loops[i]);
  }

  /** The step a goroutine of the run takes next when the run is ending. */
  lemma NextStep(cfg: Config, s: State) returns (step: Step)
    requires Inv(cfg, s) && Ending(s) && !s.main.Returned?
    ensures Enabled(cfg, s, step) && !step.ParentCancelled? && !step.HandlerStep?
    ensures step != ReporterStep(Tick) && !(step.LoopStep? && step.l == Accept)
    ensures Ending(Apply(cfg, s, step)) && Measure(cfg, Apply(cfg, s, step)) < Measure(cfg, s)
  {
    hide Accounts, Phases, Tallies, EndOfRun, Measure;
    match s.main {
      case WaitingLoops => step := NextWaited(cfg, s);
      case Binding(_) => step := MainStep(BindOk); BindDescends(cfg, s);
      case _ => step := NextOfMain(cfg, s);
    }
  }

  lemma BindDescends(cfg: Config, s: State)
    requires Phases(cfg, s) && s.main.Binding?
    ensures Enabled(cfg, s, MainStep(BindOk)) && Measure(cfg, ApplyMain(cfg, s, BindOk)) < Measure(cfg, s)
  {
    hide LoopRanks;
    LoopRanksUpdate(s.loops, s.main.i, Accepting);
  }

  /** The step of Run itself where it neither binds nor waits for the group. */
  lemma NextOfMain(cfg: Config, s: State) returns (step: Step)
    requires Phases(cfg, s) && Ending(s) && !s.main.Returned? && !s.main.Binding? && s.main != WaitingLoops
    ensures step.MainStep? && Enabled(cfg, s, step)
    ensures Ending(Apply(cfg, s, step)) && Measure(cfg, Apply(cfg, s, step)) < Measure(cfg, s)
  {
    hide LoopRanks;
    match s.main {
      case StartingAdmin => step := MainStep(AdminOk);
      case StartingReporter => step := MainStep(StartReporter);
      case Selecting => step := MainStep(if s.cancelled then SelectCancelled else SelectError);
      case Cancelling => step := MainStep(Cancel);
      case Closing(k) => step := MainStep(CloseNext);
      case ShuttingAdmin => step := MainStep(ShutAdmin);
      case WaitingConnections => step := MainStep(GraceElapsed);
    }
  }

  /** wg.Wait is not stuck: whatever the group still counts can take a step towards its Done. */
  lemma NextWaited(cfg: Config, s: State) returns (step: Step)
    requires Inv(cfg, s) && s.main == WaitingLoops
    ensures Enabled(cfg, s, step) && (step == MainStep(LoopsDone) || step.LoopStep? || step.AdminStep? || step.ReporterStep?)
    ensures step != ReporterStep(Tick) && !(step.LoopStep? && step.l == Accept)
    ensures Stopping(Apply(cfg, s, step).main) && Measure(cfg, Apply(cfg, s, step)) < Measure(cfg, s)
  {
    hide Accounts, CountLoops, LoopRanks;
    if AdminLive(s.admin) {
      step := AdminStep(match s.admin case AdminServing => ServeReturnsClosed case AdminFailed => AdminSend case _ => AdminDone);
      if s.admin == AdminFailed { AdminCanSend(cfg, s); }
    } else if ReporterLive(s.reporter) {
      step := ReporterStep(match s.reporter case ReporterIdle => SeeCancelled case ReporterBusy => ReportDone
                           case ReporterFlushing => FlushDone case _ => ReporterDone);
    } else if s.wg > 0 {
      var i := SomeLoopRuns(s.loops);
      var a := LoopNext(s.loops[i]);
      SendersNeverBlock(cfg, s, i);
      step := LoopStep(i, a);
      LoopStepDescends(cfg, s, i, a);
    } else {
      step := MainStep(LoopsDone);
    }
  }

  lemma AdminCanSend(cfg: Config, s: State)
    requires Inv(cfg, s) && s.admin == AdminFailed
    ensures s.errors < ErrorCapacity(cfg)
  {
  }

  lemma MeasureIsNatural(cfg: Config, s: State)
    requires Phases(cfg, s)
    ensures Measure(cfg, s) >= 0
  {
  }

  /**
   * From every reachable state in which the run is ending, Run can return, by steps of its own
   * goroutines only and within the measure.
   */
  lemma {:induction false} CanReturn(cfg: Config, s: State) returns (steps: seq<Step>)
    requires Inv(cfg, s) && Ending(s)
    ensures Runs(cfg, s, steps) && Exec(cfg, s, steps).main.Returned?
    ensures |steps| <= Measure(cfg, s)
    ensures forall step <- steps :: !step.ParentCancelled? && step != ReporterStep(Tick) && !(step.LoopStep? && step.l == Accept)
    decreases Measure(cfg, s)
  {
    hide Accounts, Phases, Tallies, EndOfRun, Measure, Apply, Enabled;
    MeasureIsNatural(cfg, s);
    PhasesShape(cfg, s);
    if s.main.Returned? {
      steps := [];
    } else {
      var step := NextStep(cfg, s);
      StepKeeps(cfg, s, step);
      var t := Apply(cfg, s, step);
      MeasureIsNatural(cfg, t);
      var rest := CanReturn(cfg, t);
      steps := [step] + rest;
      assert steps[1..] == rest;
    }
  }

  /**
   * While wg.Wait is pending, no step of any goroutine except the reporter's ticker raises the measure,
   * and every step of a goroutine the group counts lowers it: only finitely many of them are left.
   */
  lemma ProgressIsKept(cfg: Config, s: State, step: Step)
    requires Inv(cfg, s) && s.main == WaitingLoops && Enabled(cfg, s, step) && step != ReporterStep(Tick)
    ensures Measure(cfg, Apply(cfg, s, step)) <= Measure(cfg, s)
    ensures step.LoopStep? || step.AdminStep? || step.ReporterStep? ==> Measure(cfg, Apply(cfg, s, step)) < Measure(cfg, s)
  {
    hide Accounts, Tallies, EndOfRun, LoopRanks, NextLoop, NextHandler, Tally;
    match step
    case LoopStep(i, l) =>
      hide Measure, Phases;
      ClosedOrNotStarted(cfg, s, i);
      PhasesShape(cfg, s);
      LoopStepDescends(cfg, s, i, l);
    case _ => hide Phases;
  }

  lemma ClosedOrNotStarted(cfg: Config, s: State, i: nat)
    requires Phases(cfg, s) && s.main == WaitingLoops && i < |s.loops|
    ensures s.loops[i].NotStarted? || s.closed[i]
  {
  }
}
