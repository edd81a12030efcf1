/**
 * What a run does, beside what it never does: when a connection is admitted, how the run gets under way,
 * when an accept loop ends silently, and that the reporter reports first and flushes last.
 */
module ServiceOutcomes {
  import opened ServiceRun
  import opened ServiceAccounts
  import opened ServiceShutdown
  import opened Wrappers

  // ----- Admission -----

  /** The inbound is bounded and as many handlers hold its tokens as there are. */
  predicate IsFull(cfg: Config, s: State, i: nat)
    requires i < |cfg.inbounds|
  {
    cfg.inbounds[i].maxConnections > 0 && Count(s.handlers, HoldsToken(i)) == cfg.inbounds[i].maxConnections
  }

  /** A connection in hand is rejected if and only if its inbound is bounded and full, and admitted otherwise. */
  lemma AdmittedIff(cfg: Config, steps: seq<Step>, i: nat)
    requires Runs(cfg, Init(cfg), steps) && i < |cfg.inbounds|
    ensures
      var s := Exec(cfg, Init(cfg), steps);
      && Shaped(cfg, s)
      && (s.loops[i] == Holding ==>
            && Enabled(cfg, s, LoopStep(i, TryAcquire))
            && Apply(cfg, s, LoopStep(i, TryAcquire)).loops[i] == if IsFull(cfg, s, i) then Rejecting else Admitted)
  {
    hide Count, Init, Runs, Exec, Tallies;
    var s := Exec(cfg, Init(cfg), steps);
    Reachable(cfg, steps);
    PhasesShape(cfg, s);
    if s.loops[i] == Holding { FullIff(cfg, s, i); }
  }

  lemma FullIff(cfg: Config, s: State, i: nat)
    requires Accounts(cfg, s) && i < |cfg.inbounds| && s.loops[i] == Holding
    ensures IsFull(cfg, s, i) <==> cfg.inbounds[i].maxConnections > 0 && s.tokens[i] >= cfg.inbounds[i].maxConnections
  {
    Admission(cfg, s, i);
  }

  /** An unbounded inbound never rejects. */
  lemma UnboundedRejectsNone(cfg: Config, steps: seq<Step>, i: nat)
    requires Runs(cfg, Init(cfg), steps) && i < |cfg.inbounds| && cfg.inbounds[i].maxConnections == 0
    ensures Shaped(cfg, Exec(cfg, Init(cfg), steps)) && Exec(cfg, Init(cfg), steps).rejectedBy[i] == 0
  {
    hide Accounts, Tallies;
    InitInv(cfg);
    InitInbound(cfg, i);
    NoneRejected(cfg, Init(cfg), steps, i);
  }

  predicate Unrejecting(cfg: Config, s: State, i: nat) {
    Shaped(cfg, s) && i < |cfg.inbounds| && s.rejectedBy[i] == 0 && s.loops[i] != Rejecting
  }

  lemma {:induction false} NoneRejected(cfg: Config, s: State, steps: seq<Step>, i: nat)
    requires Runs(cfg, s, steps) && Inv(cfg, s) && Unrejecting(cfg, s, i) && cfg.inbounds[i].maxConnections == 0
    ensures Unrejecting(cfg, Exec(cfg, s, steps), i)
    decreases |steps|
  {
    hide Apply, Enabled, Inv, Unrejecting;
    if steps != [] {
      StepKeeps(cfg, s, steps[0]);
      UnrejectingKept(cfg, s, steps[0], i);
      NoneRejected(cfg, Apply(cfg, s, steps[0]), steps[1..], i);
    }
  }

  lemma UnrejectingKept(cfg: Config, s: State, step: Step, i: nat)
    requires Unrejecting(cfg, s, i) && cfg.inbounds[i].maxConnections == 0 && Enabled(cfg, s, step) && Inv(cfg, Apply(cfg, s, step))
    ensures Unrejecting(cfg, Apply(cfg, s, step), i)
  {
    hide NextHandler, Tally, Accounts, Tallies, EndOfRun, Phases;
    var t := Apply(cfg, s, step);
    PhasesShape(cfg, t);
    match step
    case LoopStep(j, l) => hide Bump; LoopUnrejecting(cfg, s, j, l, i);
    case MainStep(m) => MainUnrejecting(cfg, s, m, i);
    case _ => assert t.loops == s.loops && t.rejectedBy == s.rejectedBy;
  }

  lemma LoopUnrejecting(cfg: Config, s: State, j: nat, l: LoopAct, i: nat)
    requires Unrejecting(cfg, s, i) && cfg.inbounds[i].maxConnections == 0 && LoopEnabled(cfg, s, j, l)
    ensures Unrejecting(cfg, ApplyLoop(cfg, s, j, l), i)
  {
  }

  lemma MainUnrejecting(cfg: Config, s: State, m: MainAct, i: nat)
    requires Unrejecting(cfg, s, i) && MainEnabled(cfg, s, m) && Shaped(cfg, ApplyMain(cfg, s, m))
    ensures Unrejecting(cfg, ApplyMain(cfg, s, m), i)
  {
  }

  // ----- A connection gets its handler -----

  /** An accepting loop with its listener open serves the next connection: with a new handler, or, if full, with a rejection. */
  lemma NextConnection(cfg: Config, s: State, i: nat) returns (steps: seq<Step>)
    requires Inv(cfg, s) && i < |cfg.inbounds| && s.loops[i] == Accepting && !s.closed[i]
    ensures Runs(cfg, s, steps) && forall step <- steps :: step.LoopStep? && step.i == i
    ensures
      var t := Exec(cfg, s, steps);
      && t.loops == s.loops && t.acceptedBy == s.acceptedBy[i := s.acceptedBy[i] + 1]
      && if IsFull(cfg, s, i) then t.handlers == s.handlers && t.rejectedBy == s.rejectedBy[i := s.rejectedBy[i] + 1]
         else t.handlers == s.handlers + [Handler(i, Spawned, None)] && t.rejectedBy == s.rejectedBy
  {
    hide Accounts, Phases, Tallies, EndOfRun, Runs, Exec, Apply, Enabled, Count;
    PhasesShape(cfg, s);
    TokensWithinLimit(cfg, s, i);
    var accept, acquire := LoopStep(i, Accept), LoopStep(i, TryAcquire);
    LoopEffect(cfg, s, i, Accept);
    var held := Apply(cfg, s, accept);
    LoopEffect(cfg, held, i, TryAcquire);
    var tried := Apply(cfg, held, acquire);
    var rest := LastSteps(cfg, tried, i);
    RunCons(cfg, held, acquire, rest);
    RunCons(cfg, s, accept, [acquire] + rest);
    steps := [accept] + ([acquire] + rest);
    assert s.loops[i := Accepting] == s.loops;
  }

  lemma RunCons(cfg: Config, s: State, step: Step, rest: seq<Step>)
    requires Shaped(cfg, s) && Enabled(cfg, s, step) && Runs(cfg, Apply(cfg, s, step), rest)
    ensures Runs(cfg, s, [step] + rest) && Exec(cfg, s, [step] + rest) == Exec(cfg, Apply(cfg, s, step), rest)
  {
    hide Apply, Enabled;
    assert ([step] + rest)[1..] == rest;
  }

  /** What one act of an accept loop changes. */
  lemma LoopEffect(cfg: Config, s: State, i: nat, a: LoopAct)
    requires Shaped(cfg, s) && i < |cfg.inbounds| && CanLoop(s.loops[i], a, s.closed[i]) && a != SendError
    ensures Enabled(cfg, s, LoopStep(i, a))
    ensures
      var t := Apply(cfg, s, LoopStep(i, a));
      var limit := cfg.inbounds[i].maxConnections;
      && Shaped(cfg, t) && t.closed == s.closed
      && t.loops == s.loops[i := NextLoop(s.loops[i], a, s.cancelled || s.closed[i], limit > 0 && s.tokens[i] >= limit)]
      && t.acceptedBy == (if a == Accept then s.acceptedBy[i := s.acceptedBy[i] + 1] else s.acceptedBy)
      && t.rejectedBy == (if a == CountRejected then s.rejectedBy[i := s.rejectedBy[i] + 1] else s.rejectedBy)
      && t.handlers == (if a == Spawn then s.handlers + [Handler(i, Spawned, None)] else s.handlers)
      && (a != TryAcquire ==> t.tokens == s.tokens)
  {
    hide NextLoop;
  }

  lemma TokensWithinLimit(cfg: Config, s: State, i: nat)
    requires Accounts(cfg, s) && i < |cfg.inbounds| && s.loops[i] == Accepting
    ensures IsFull(cfg, s, i) <==> cfg.inbounds[i].maxConnections > 0 && s.tokens[i] >= cfg.inbounds[i].maxConnections
  {
    Admission(cfg, s, i);
  }

  lemma LastSteps(cfg: Config, s: State, i: nat) returns (rest: seq<Step>)
    requires Shaped(cfg, s) && i < |cfg.inbounds| && (s.loops[i] == Rejecting || s.loops[i] == Admitted)
    ensures Runs(cfg, s, rest) && forall step <- rest :: step.LoopStep? && step.i == i
    ensures
      var t := Exec(cfg, s, rest);
      && t.loops == s.loops[i := Accepting] && t.acceptedBy == s.acceptedBy
      && t.handlers == (if s.loops[i] == Rejecting then s.handlers else s.handlers + [Handler(i, Spawned, None)])
      && t.rejectedBy == (if s.loops[i] == Rejecting then s.rejectedBy[i := s.rejectedBy[i] + 1] else s.rejectedBy)
  {
    hide Apply, Enabled;
    if s.loops[i] == Rejecting {
      LoopEffect(cfg, s, i, CountRejected);
      RunCons(cfg, s, LoopStep(i, CountRejected), []);
      rest := [LoopStep(i, CountRejected)] + [];
    } else {
      LoopEffect(cfg, s, i, AddConnection);
      var m := Apply(cfg, s, LoopStep(i, AddConnection));
      LoopEffect(cfg, m, i, Spawn);
      RunCons(cfg, m, LoopStep(i, Spawn), []);
      RunCons(cfg, s, LoopStep(i, AddConnection), [LoopStep(i, Spawn)] + []);
      rest := [LoopStep(i, AddConnection)] + ([LoopStep(i, Spawn)] + []);
      assert s.loops[i := Tracked][i := Accepting] == s.loops[i := Accepting];
    }
  }

  // ----- What is started, and what ends silently -----

  /**
   * In the select a configured admin server and reporter have been started and no others; the reporter flushes
   * only in a cancelled run; an accept loop that ended without sending an error did so because the run was
   * cancelled or its listener closed, and the admin server because it was shut down.
   */
  ghost predicate Started(cfg: Config, s: State) {
    && Shaped(cfg, s)
    && (s.admin != AdminOff ==> cfg.admin) && (s.reporter != ReporterOff ==> cfg.kboard)
    && (s.main == StartingReporter || s.main == Selecting ==> (cfg.admin ==> s.admin != AdminOff))
    && (s.main == Selecting ==> (cfg.kboard ==> s.reporter != ReporterOff))
    && (s.reporter == ReporterFlushing || s.reporter == ReporterFinishing || s.reporter == ReporterFinished ==> s.cancelled)
    && (forall i :: 0 <= i < |s.loops| ==> Silent(s.loops[i]) ==> s.cancelled || s.closed[i])
    && (QuietAdmin(s.admin) ==> ShutDown(s.main))
  }

  predicate QuietAdmin(a: Admin) { (a.AdminFinishing? || a.AdminFinished?) && !a.sent }

  /** Run has reached the shutdown of the admin server. */
  predicate ShutDown(m: Main) { m == ShuttingAdmin || m == WaitingLoops || m == WaitingConnections || m.Returned? }

  predicate Silent(l: Loop) { (l.Finishing? || l.Finished?) && !l.sent }

  lemma StartedKept(cfg: Config, s: State, step: Step)
    requires Started(cfg, s) && Enabled(cfg, s, step) && Shaped(cfg, Apply(cfg, s, step))
    ensures Started(cfg, Apply(cfg, s, step))
  {
    hide Started;
    match step
    case MainStep(m) => MainKeepsStarted(cfg, s, m);
    case LoopStep(i, l) => LoopKeepsStarted(cfg, s, i, l);
    case _ => OthersKeepStarted(cfg, s, step);
  }

  lemma MainKeepsStarted(cfg: Config, s: State, m: MainAct)
    requires Started(cfg, s) && MainEnabled(cfg, s, m) && Shaped(cfg, ApplyMain(cfg, s, m))
    ensures Started(cfg, ApplyMain(cfg, s, m))
  {
  }

  lemma LoopKeepsStarted(cfg: Config, s: State, i: nat, l: LoopAct)
    requires Started(cfg, s) && LoopEnabled(cfg, s, i, l)
    ensures Started(cfg, ApplyLoop(cfg, s, i, l))
  {
    hide Bump;
  }

  lemma OthersKeepStarted(cfg: Config, s: State, step: Step)
    requires Started(cfg, s) && Enabled(cfg, s, step) && !step.MainStep? && !step.LoopStep?
    ensures Started(cfg, Apply(cfg, s, step))
  {
    hide Started, ApplyHandler, ApplyAdmin, ApplyReporter;
    StartedIsShaped(cfg, s);
    match step
    case ParentCancelled => StartedFrame(cfg, s, Apply(cfg, s, step));
    case HandlerStep(k, h) => HandlerKeepsStarted(cfg, s, k, h);
    case AdminStep(a) => AdminKeepsStarted(cfg, s, a);
    case ReporterStep(r) => ReporterKeepsStarted(cfg, s, r);
  }

  lemma HandlerKeepsStarted(cfg: Config, s: State, k: nat, h: HandlerAct)
    requires Started(cfg, s) && HandlerEnabled(cfg, s, k, h)
    ensures Started(cfg, ApplyHandler(cfg, s, k, h))
  {
    hide Started, NextHandler, Tally;
    StartedIsShaped(cfg, s);
    StartedFrame(cfg, s, ApplyHandler(cfg, s, k, h));
  }

  lemma StartedIsShaped(cfg: Config, s: State)
    requires Started(cfg, s)
    ensures Shaped(cfg, s)
  {
  }

  lemma AdminKeepsStarted(cfg: Config, s: State, a: AdminAct)
    requires Started(cfg, s) && AdminEnabled(cfg, s, a)
    ensures Started(cfg, ApplyAdmin(cfg, s, a))
  {
    hide Started;
    StartedFrame(cfg, s, ApplyAdmin(cfg, s, a));
  }

  lemma ReporterKeepsStarted(cfg: Config, s: State, r: ReporterAct)
    requires Started(cfg, s) && ReporterEnabled(s, r)
    ensures Started(cfg, ApplyReporter(s, r))
  {
    hide Started;
    StartedFrame(cfg, s, ApplyReporter(s, r));
  }

  lemma StartedFrame(cfg: Config, s: State, t: State)
    requires Started(cfg, s) && t.loops == s.loops && t.closed == s.closed && t.main == s.main && t.bound == s.bound
    requires |t.tokens| == |s.tokens| && t.acceptedBy == s.acceptedBy && t.rejectedBy == s.rejectedBy
    requires (t.admin == AdminOff <==> s.admin == AdminOff) && (t.reporter == ReporterOff <==> s.reporter == ReporterOff)
    requires (s.cancelled ==> t.cancelled) && (QuietAdmin(t.admin) ==> QuietAdmin(s.admin) || ShutDown(s.main))
    requires t.reporter == s.reporter || (t.reporter == ReporterFinished && s.reporter == ReporterFinishing)
          || (t.reporter == ReporterFinishing && s.reporter == ReporterFlushing) || t.cancelled
          || t.reporter == ReporterIdle || t.reporter == ReporterBusy
    ensures Started(cfg, t)
  {
  }

  lemma {:induction false} StartedRun(cfg: Config, s: State, steps: seq<Step>)
    requires Inv(cfg, s) && Started(cfg, s) && Runs(cfg, s, steps)
    ensures Started(cfg, Exec(cfg, s, steps))
    decreases |steps|
  {
    hide Apply, Enabled, Accounts, Phases, Tallies, EndOfRun, Started;
    if steps != [] {
      StepKeeps(cfg, s, steps[0]);
      PhasesShape(cfg, Apply(cfg, s, steps[0]));
      StartedKept(cfg, s, steps[0]);
      StartedRun(cfg, Apply(cfg, s, steps[0]), steps[1..]);
    }
  }

  lemma EveryRunStarts(cfg: Config, steps: seq<Step>)
    requires Runs(cfg, Init(cfg), steps)
    ensures Started(cfg, Exec(cfg, Init(cfg), steps))
  {
    hide Accounts, Tallies;
    InitInv(cfg);
    StartedRun(cfg, Init(cfg), steps);
  }

  /** A failed Accept is reported unless the run is cancelled or the listener closed, and then it is silent. */
  lemma AcceptErrorReportedIff(cfg: Config, s: State, i: nat)
    requires Shaped(cfg, s) && i < |cfg.inbounds| && s.loops[i] == Accepting
    ensures Enabled(cfg, s, LoopStep(i, AcceptFails))
    ensures Apply(cfg, s, LoopStep(i, AcceptFails)).loops[i] == if s.cancelled || s.closed[i] then Finishing(false) else Failed
  {
  }

  // ----- The reporter reports first and flushes last -----

  predicate Reported(r: Reporter) { r != ReporterOff && r != ReporterBusy }

  predicate Flushed(r: Reporter) { r == ReporterFinishing || r == ReporterFinished }

  /** The reporter waits for its ticker only after a first report, and ends only after a flush. */
  lemma {:induction false} ReportsThenFlushes(cfg: Config, s: State, steps: seq<Step>)
    requires Runs(cfg, s, steps)
    ensures
      var t := Exec(cfg, s, steps);
      && (Reported(t.reporter) ==> Reported(s.reporter) || ReporterStep(ReportDone) in steps)
      && (Flushed(t.reporter) ==> Flushed(s.reporter) || ReporterStep(FlushDone) in steps)
    decreases |steps|
  {
    hide Apply, Enabled;
    if steps != [] {
      ReporterMoves(cfg, s, steps[0]);
      ReportsThenFlushes(cfg, Apply(cfg, s, steps[0]), steps[1..]);
    }
  }

  lemma ReporterMoves(cfg: Config, s: State, step: Step)
    requires Shaped(cfg, s) && Enabled(cfg, s, step)
    ensures
      var t := Apply(cfg, s, step);
      && (Reported(t.reporter) ==> Reported(s.reporter) || step == ReporterStep(ReportDone))
      && (Flushed(t.reporter) ==> Flushed(s.reporter) || step == ReporterStep(FlushDone))
  {
    hide NextHandler, Tally, NextLoop, Bump;
  }

  // ----- Every configuration can get under way -----

  /** If nothing fails, Run reaches its select with every inbound accepting and the configured servers started. */
  lemma CanStart(cfg: Config) returns (steps: seq<Step>)
    ensures Runs(cfg, Init(cfg), steps)
    ensures
      var s := Exec(cfg, Init(cfg), steps);
      && s.main == Selecting && s.bound == |cfg.inbounds| && |s.loops| == |cfg.inbounds| && (forall l <- s.loops :: l == Accepting)
      && (s.admin == if cfg.admin then AdminServing else AdminOff)
      && (s.reporter == if cfg.kboard then ReporterBusy else ReporterOff) && !s.cancelled
  {
    hide Accounts, Tallies;
    InitInv(cfg);
    steps := StartFrom(cfg, Init(cfg));
  }

  lemma {:induction false} StartFrom(cfg: Config, s: State) returns (steps: seq<Step>)
    requires Inv(cfg, s) && (s.main.Binding? || s.main == StartingAdmin) && !s.cancelled
    requires forall j :: 0 <= j < s.bound ==> s.loops[j] == Accepting
    ensures Runs(cfg, s, steps)
    ensures
      var t := Exec(cfg, s, steps);
      && t.main == Selecting && t.bound == |cfg.inbounds| && |t.loops| == |cfg.inbounds| && (forall l <- t.loops :: l == Accepting)
      && (t.admin == if cfg.admin then AdminServing else AdminOff)
      && (t.reporter == if cfg.kboard then ReporterBusy else ReporterOff) && !t.cancelled
    decreases if s.main.Binding? then |cfg.inbounds| - s.main.i else 0
  {
    hide Accounts, Tallies, EndOfRun;
    PhasesShape(cfg, s);
    if s.main.Binding? {
      var step := MainStep(BindOk);
      var t := Apply(cfg, s, step);
      StepKeeps(cfg, s, step);
      var rest := StartFrom(cfg, t);
      steps := [step] + rest;
      assert steps[1..] == rest;
    } else {
      steps := [MainStep(AdminOk), MainStep(StartReporter)];
      var t := Apply(cfg, s, steps[0]);
      assert steps[1..] == [MainStep(StartReporter)] && steps[1..][1..] == [];
      assert Runs(cfg, t, [MainStep(StartReporter)]);
    }
  }

  // ----- Every way out -----

  /** From `s` the given steps can be taken, and Run is about to cancel: the first step of every exit path. */
  ghost predicate Stops(cfg: Config, s: State, steps: seq<Step>) {
    Runs(cfg, s, steps) && Exec(cfg, s, steps).main == Cancelling
  }

  lemma StopsCons(cfg: Config, s: State, step: Step, rest: seq<Step>)
    requires Shaped(cfg, s) && Enabled(cfg, s, step) && Stops(cfg, Apply(cfg, s, step), rest)
    ensures Stops(cfg, s, [step] + rest)
  {
    RunCons(cfg, s, step, rest);
  }

  lemma StopsAt(cfg: Config, s: State, m: MainAct)
    requires Shaped(cfg, s) && Enabled(cfg, s, MainStep(m)) && ApplyMain(cfg, s, m).main == Cancelling
    ensures Stops(cfg, s, [MainStep(m)])
  {
    RunCons(cfg, s, MainStep(m), []);
    assert [MainStep(m)] + [] == [MainStep(m)];
  }

  /** A listen that fails stops the run, at any inbound, and so does the admin server's if one is configured. */
  lemma FailedListenStops(cfg: Config, s: State)
    requires Inv(cfg, s)
    ensures s.main.Binding? ==> Stops(cfg, s, [MainStep(BindFails)])
    ensures s.main == StartingAdmin && cfg.admin ==> Stops(cfg, s, [MainStep(AdminFails)])
    ensures Enabled(cfg, s, MainStep(AdminFails)) ==> cfg.admin
  {
    PhasesShape(cfg, s);
    if s.main.Binding? { StopsAt(cfg, s, BindFails); }
    if s.main == StartingAdmin && cfg.admin { StopsAt(cfg, s, AdminFails); }
  }

  /** In the select, cancellation from outside stops the run. */
  lemma CancellationStops(cfg: Config, s: State)
    requires Inv(cfg, s) && s.main == Selecting
    ensures Stops(cfg, s, [ParentCancelled] + [MainStep(SelectCancelled)])
  {
    hide Accounts, Phases, Tallies, EndOfRun;
    PhasesShape(cfg, s);
    StopsAt(cfg, Apply(cfg, s, ParentCancelled), SelectCancelled);
    StopsCons(cfg, s, ParentCancelled, [MainStep(SelectCancelled)]);
  }

  /** In the select, a failed Accept of a running inbound stops the run. */
  lemma AcceptErrorStops(cfg: Config, s: State, i: nat)
    requires Inv(cfg, s) && s.main == Selecting && !s.cancelled && i < |cfg.inbounds| && s.loops[i] == Accepting
    ensures Stops(cfg, s, [LoopStep(i, AcceptFails)] + ([LoopStep(i, SendError)] + [MainStep(SelectError)]))
  {
    hide Accounts, Tallies, EndOfRun;
    PhasesShape(cfg, s);
    var failed := Apply(cfg, s, LoopStep(i, AcceptFails));
    StepKeeps(cfg, s, LoopStep(i, AcceptFails));
    SendersNeverBlock(cfg, failed, i);
    var sent := Apply(cfg, failed, LoopStep(i, SendError));
    StopsAt(cfg, sent, SelectError);
    StopsCons(cfg, failed, LoopStep(i, SendError), [MainStep(SelectError)]);
    StopsCons(cfg, s, LoopStep(i, AcceptFails), [LoopStep(i, SendError)] + [MainStep(SelectError)]);
  }

  /** In the select, a failing admin server stops the run. */
  lemma AdminErrorStops(cfg: Config, s: State)
    requires Inv(cfg, s) && s.main == Selecting && s.admin == AdminServing
    ensures Stops(cfg, s, [AdminStep(ServeFails)] + ([AdminStep(AdminSend)] + [MainStep(SelectError)]))
  {
    hide Accounts, Tallies, EndOfRun, Phases;
    PhasesShape(cfg, s);
    var failed := Apply(cfg, s, AdminStep(ServeFails));
    StepKeeps(cfg, s, AdminStep(ServeFails));
    AdminHasRoom(cfg, failed);
    var sent := Apply(cfg, failed, AdminStep(AdminSend));
    StopsAt(cfg, sent, SelectError);
    StopsCons(cfg, failed, AdminStep(AdminSend), [MainStep(SelectError)]);
    StopsCons(cfg, s, AdminStep(ServeFails), [AdminStep(AdminSend)] + [MainStep(SelectError)]);
  }

  lemma AdminHasRoom(cfg: Config, s: State)
    requires Inv(cfg, s) && s.admin == AdminFailed
    ensures 0 <= s.errors < ErrorCapacity(cfg)
  {
  }

  /** When the last connection has ended the final wait can end through done rather than through the timer. */
  lemma IdleRunDrains(cfg: Config, s: State)
    requires Inv(cfg, s) && s.main == WaitingConnections && s.connections == 0
    ensures Runs(cfg, s, [MainStep(WaiterDone)] + ([MainStep(Drained)] + []))
    ensures Exec(cfg, s, [MainStep(WaiterDone)] + ([MainStep(Drained)] + [])).main == Returned(true)
  {
    PhasesShape(cfg, s);
    var done := Apply(cfg, s, MainStep(WaiterDone));
    RunCons(cfg, done, MainStep(Drained), []);
    RunCons(cfg, s, MainStep(WaiterDone), [MainStep(Drained)] + []);
  }

  /** A waiting reporter can report again at its next tick, and only a cancelled one can flush. */
  lemma ReporterGoesOn(cfg: Config, s: State)
    requires s.reporter == ReporterIdle
    ensures Enabled(cfg, s, ReporterStep(Tick)) && ApplyReporter(s, Tick).reporter == ReporterBusy
    ensures Enabled(cfg, ApplyReporter(s, Tick), ReporterStep(ReportDone))
    ensures ApplyReporter(ApplyReporter(s, Tick), ReportDone).reporter == ReporterIdle
    ensures Enabled(cfg, s, ReporterStep(SeeCancelled)) <==> s.cancelled
  {
  }
}
