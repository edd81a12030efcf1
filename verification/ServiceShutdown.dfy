/**
 * Start-up and shutdown of Service.Run: which goroutines exist in each phase, that no sender ever
 * blocks on the error channel, that no connection is added once the final wait begins, and that every
 * stopping run can finish.
 */
module ServiceShutdown {
  import opened ServiceRun
  import opened ServiceAccounts

  predicate AdminLive(a: Admin) { !a.AdminOff? && !a.AdminFinished? }

  predicate AdminSent(a: Admin) { (a.AdminFinishing? || a.AdminFinished?) && a.sent }

  predicate ReporterLive(r: Reporter) { r != ReporterOff && r != ReporterFinished }

  /** How many listeners closeAll has closed. */
  function ClosedCount(s: State): nat {
    match s.main
    case Closing(k) => k
    case ShuttingAdmin => s.bound
    case WaitingLoops => s.bound
    case WaitingConnections => s.bound
    case Returned(_) => s.bound
    case _ => 0
  }

  predicate WaitingAtEnd(m: Main) { m == WaitingConnections || m.Returned? }

  predicate Stopping(m: Main) {
    m == Cancelling || m.Closing? || m == ShuttingAdmin || m == WaitingLoops || WaitingAtEnd(m)
  }

  /** Where Run is determines which goroutines have been started and which listeners are closed. */
  ghost predicate Phases(cfg: Config, s: State) {
    && Shaped(cfg, s)
    && (s.main.Binding? ==> s.main.i == s.bound < |cfg.inbounds|)
    && (s.main in {StartingAdmin, StartingReporter, Selecting} ==> s.bound == |cfg.inbounds|)
    && (s.main.Binding? || s.main == StartingAdmin ==> s.admin == AdminOff)
    && (s.main.Binding? || s.main == StartingAdmin || s.main == StartingReporter ==> s.reporter == ReporterOff)
    && (s.admin != AdminOff ==> s.bound == |cfg.inbounds|)
    && ClosedCount(s) <= s.bound
    && (Stopping(s.main) && s.main != Cancelling ==> s.cancelled)
    && (forall j :: 0 <= j < |s.loops| ==> (s.loops[j].NotStarted? <==> j >= s.bound))
    && (forall j :: 0 <= j < |s.closed| ==> (s.closed[j] <==> j < ClosedCount(s)))
  }

  ghost predicate Tallies(s: State) {
    && s.wg == CountLoops(s.loops, Running) + One(AdminLive(s.admin)) + One(ReporterLive(s.reporter))
    && s.errors + s.received == CountLoops(s.loops, HasSent) + One(AdminSent(s.admin))
    && s.errors >= 0 && s.received >= 0
  }

  ghost predicate EndOfRun(s: State) {
    && (WaitingAtEnd(s.main) ==> s.wg == 0)
    && (s.doneClosed ==> WaitingAtEnd(s.main) && s.connections == 0)
    && (s.main == Returned(true) ==> s.doneClosed)
  }

  ghost predicate Inv(cfg: Config, s: State) {
    Accounts(cfg, s) && Phases(cfg, s) && Tallies(s) && EndOfRun(s)
  }

  // ----- The wait group counts what is running -----

  lemma NothingRunning(s: State, i: nat)
    requires Tallies(s) && s.wg == 0 && i < |s.loops|
    ensures !LoopHas(s.loops[i], Running) && !AdminLive(s.admin) && !ReporterLive(s.reporter)
  {
    if LoopHas(s.loops[i], Running) { CountLoopsMember(s.loops, i, Running); }
  }

  lemma LoopEnabledIsRunning(cfg: Config, s: State, i: nat, a: LoopAct)
    requires Tallies(s) && LoopEnabled(cfg, s, i, a)
    ensures s.wg > 0
  {
    CountLoopsMember(s.loops, i, Running);
  }

  // ----- Every step keeps the invariant -----

  lemma LoopKeepsPhases(cfg: Config, s: State, i: nat, a: LoopAct)
    requires Phases(cfg, s) && LoopEnabled(cfg, s, i, a)
    ensures Phases(cfg, ApplyLoop(cfg, s, i, a))
  {
  }

  lemma LoopKeepsTallies(cfg: Config, s: State, i: nat, a: LoopAct)
    requires Shaped(cfg, s) && Tallies(s) && LoopEnabled(cfg, s, i, a)
    ensures Tallies(ApplyLoop(cfg, s, i, a))
  {
    hide LoopHas, AdminLive, AdminSent, ReporterLive, CountLoops, NextLoop;
    var t := ApplyLoop(cfg, s, i, a);
    var limit := cfg.inbounds[i].maxConnections;
    LoopDeltas(s.loops[i], a, s.closed[i], s.cancelled || s.closed[i], limit > 0 && s.tokens[i] >= limit, i);
    CountLoopsUpdate(s.loops, i, t.loops[i], Running);
    CountLoopsUpdate(s.loops, i, t.loops[i], HasSent);
  }

  lemma LoopKeeps(cfg: Config, s: State, i: nat, a: LoopAct)
    requires Inv(cfg, s) && LoopEnabled(cfg, s, i, a)
    ensures Inv(cfg, ApplyLoop(cfg, s, i, a))
  {
    hide Accounts, Phases, Tallies;
    PhasesShape(cfg, s);
    LoopKeepsAccounts(cfg, s, i, a);
    LoopKeepsPhases(cfg, s, i, a);
    LoopKeepsTallies(cfg, s, i, a);
    LoopEnabledIsRunning(cfg, s, i, a);
  }

  lemma HandlerKeeps(cfg: Config, s: State, k: nat, a: HandlerAct)
    requires Inv(cfg, s) && HandlerEnabled(cfg, s, k, a)
    ensures Inv(cfg, ApplyHandler(cfg, s, k, a))
  {
    HandlerKeepsAccounts(cfg, s, k, a);
    CountMember(s.handlers, k, Alive);
  }

  lemma PhasesShape(cfg: Config, s: State)
    requires Phases(cfg, s)
    ensures Shaped(cfg, s)
  {
  }

  lemma BindKeeps(cfg: Config, s: State)
    requires Inv(cfg, s) && MainEnabled(cfg, s, BindOk)
    ensures Inv(cfg, ApplyMain(cfg, s, BindOk))
  {
    hide Accounts, Phases, CountLoops;
    PhasesShape(cfg, s);
    FirstUnstarted(cfg, s);
    var i := s.main.i;
    MainKeepsPhases(cfg, s, BindOk);
    CountLoopsUpdate(s.loops, i, Accepting, Running);
    CountLoopsUpdate(s.loops, i, Accepting, HasSent);
    BindKeepsAccounts(cfg, s);
  }

  lemma BindKeepsAccounts(cfg: Config, s: State)
    requires Accounts(cfg, s) && MainEnabled(cfg, s, BindOk)
    requires s.bound < |cfg.inbounds| && s.loops[s.main.i] == NotStarted
    ensures Accounts(cfg, ApplyMain(cfg, s, BindOk))
  {
    hide CountLoops, InboundAccounts, MetricsExact;
    CountLoopsUpdate(s.loops, s.main.i, Accepting, InTracked);
    SameAccountsKeep(cfg, s, ApplyMain(cfg, s, BindOk));
  }

  lemma FirstUnstarted(cfg: Config, s: State)
    requires Phases(cfg, s) && s.main.Binding?
    ensures s.main.i < |s.loops| == |cfg.inbounds| && s.loops[s.main.i] == NotStarted && s.bound < |cfg.inbounds|
  {
  }

  lemma MainKeepsPhases(cfg: Config, s: State, m: MainAct)
    requires Phases(cfg, s) && MainEnabled(cfg, s, m)
    ensures Phases(cfg, ApplyMain(cfg, s, m))
  {
    hide Phases;
    match m
    case BindOk => BindKeepsPhases(cfg, s);
    case CloseNext => CloseKeepsPhases(cfg, s);
    case _ => OthersKeepPhases(cfg, s, m);
  }

  lemma BindKeepsPhases(cfg: Config, s: State)
    requires Phases(cfg, s) && MainEnabled(cfg, s, BindOk)
    ensures Phases(cfg, ApplyMain(cfg, s, BindOk))
  {
  }

  lemma CloseKeepsPhases(cfg: Config, s: State)
    requires Phases(cfg, s) && MainEnabled(cfg, s, CloseNext)
    ensures Phases(cfg, ApplyMain(cfg, s, CloseNext))
  {
    if s.main.k < s.bound {
      assert ClosedCount(ApplyMain(cfg, s, CloseNext)) == ClosedCount(s) + 1;
    }
  }

  lemma OthersKeepPhases(cfg: Config, s: State, m: MainAct)
    requires Phases(cfg, s) && MainEnabled(cfg, s, m) && m != BindOk && m != CloseNext
    ensures Phases(cfg, ApplyMain(cfg, s, m))
  {
    var t := ApplyMain(cfg, s, m);
    assert t.loops == s.loops && t.closed == s.closed && t.bound == s.bound && ClosedCount(t) == ClosedCount(s);
  }

  lemma MainKeepsTallies(cfg: Config, s: State, m: MainAct)
    requires Phases(cfg, s) && Tallies(s) && EndOfRun(s) && MainEnabled(cfg, s, m) && m != BindOk
    ensures Tallies(ApplyMain(cfg, s, m)) && EndOfRun(ApplyMain(cfg, s, m))
  {
    hide CountLoops;
  }

  lemma MainKeeps(cfg: Config, s: State, m: MainAct)
    requires Inv(cfg, s) && MainEnabled(cfg, s, m)
    ensures Inv(cfg, ApplyMain(cfg, s, m))
  {
    hide Accounts, CountLoops, Phases, Tallies, EndOfRun;
    if m == BindOk {
      BindKeeps(cfg, s);
    } else {
      PhasesShape(cfg, s);
      MainKeepsPhases(cfg, s, m);
      MainKeepsTallies(cfg, s, m);
      SameAccountsKeep(cfg, s, ApplyMain(cfg, s, m));
    }
  }

  lemma AdminKeeps(cfg: Config, s: State, a: AdminAct)
    requires Inv(cfg, s) && AdminEnabled(cfg, s, a)
    ensures Inv(cfg, ApplyAdmin(cfg, s, a))
  {
    hide Accounts, CountLoops;
    SameAccountsKeep(cfg, s, ApplyAdmin(cfg, s, a));
  }

  lemma ReporterKeeps(cfg: Config, s: State, r: ReporterAct)
    requires Inv(cfg, s) && ReporterEnabled(s, r)
    ensures Inv(cfg, ApplyReporter(s, r))
  {
    hide Accounts, CountLoops;
    SameAccountsKeep(cfg, s, ApplyReporter(s, r));
  }

  lemma StepKeeps(cfg: Config, s: State, step: Step)
    requires Inv(cfg, s) && Enabled(cfg, s, step)
    ensures Inv(cfg, Apply(cfg, s, step))
  {
    match step
    case ParentCancelled =>
      hide Accounts;
      SameAccountsKeep(cfg, s, Apply(cfg, s, step));
    case MainStep(m) => MainKeeps(cfg, s, m);
    case LoopStep(i, a) => LoopKeeps(cfg, s, i, a);
    case HandlerStep(k, a) => HandlerKeeps(cfg, s, k, a);
    case AdminStep(a) => AdminKeeps(cfg, s, a);
    case ReporterStep(r) => ReporterKeeps(cfg, s, r);
  }

  lemma {:induction false} NothingStarted(n: nat, t: LoopTrait)
    ensures CountLoops(Repeat(NotStarted, n), t) == 0
  {
    hide Repeat, LoopHas;
    if n > 0 {
      var ls := Repeat(NotStarted, n);
      assert ls[..n - 1] == Repeat(NotStarted, n - 1) && ls[n - 1] == NotStarted;
      NothingStarted(n - 1, t);
      NotStartedHasNothing(t);
    }
  }

  lemma NotStartedHasNothing(t: LoopTrait)
    ensures !LoopHas(NotStarted, t)
  {
  }

  lemma {:induction false} SumOfZeros(n: nat)
    ensures Sum(Repeat(0, n)) == 0
  {
    if n > 0 {
      assert Repeat(0, n)[..n - 1] == Repeat(0, n - 1);
      SumOfZeros(n - 1);
    }
  }

  lemma InitInbound(cfg: Config, i: nat)
    requires i < |cfg.inbounds|
    ensures Shaped(cfg, Init(cfg)) && InboundAccounts(cfg, Init(cfg), i)
  {
    assert Init(cfg).loops[i] == NotStarted;
  }

  lemma InitAccounts(cfg: Config)
    ensures Accounts(cfg, Init(cfg))
  {
    hide InboundAccounts, Repeat, Sum, CountLoops;
    NothingStarted(|cfg.inbounds|, InTracked);
    SumOfZeros(|cfg.inbounds|);
    forall i | 0 <= i < |cfg.inbounds| ensures InboundAccounts(cfg, Init(cfg), i) { InitInbound(cfg, i); }
  }

  lemma InitInv(cfg: Config)
    ensures Inv(cfg, Init(cfg))
  {
    hide Accounts, Repeat, CountLoops, Sum;
    InitAccounts(cfg);
    NothingStarted(|cfg.inbounds|, Running);
    NothingStarted(|cfg.inbounds|, HasSent);
  }

  // ----- Runs -----

  predicate Runs(cfg: Config, s: State, steps: seq<Step>)
    decreases |steps|
  {
    steps == [] ||
    (Shaped(cfg, s) && Enabled(cfg, s, steps[0]) && Runs(cfg, Apply(cfg, s, steps[0]), steps[1..]))
  }

  function Exec(cfg: Config, s: State, steps: seq<Step>): State
    requires Runs(cfg, s, steps)
    decreases |steps|
  {
    if steps == [] then s else Exec(cfg, Apply(cfg, s, steps[0]), steps[1..])
  }

  lemma {:induction false} RunKeeps(cfg: Config, s: State, steps: seq<Step>)
    requires Inv(cfg, s) && Runs(cfg, s, steps)
    ensures Inv(cfg, Exec(cfg, s, steps))
    decreases |steps|
  {
    hide Inv, Apply, Enabled;
    if steps != [] {
      StepKeeps(cfg, s, steps[0]);
      RunKeeps(cfg, Apply(cfg, s, steps[0]), steps[1..]);
    }
  }

  /** The invariant holds in every reachable state. */
  lemma Reachable(cfg: Config, steps: seq<Step>)
    requires Runs(cfg, Init(cfg), steps)
    ensures Inv(cfg, Exec(cfg, Init(cfg), steps))
  {
    InitInv(cfg);
    RunKeeps(cfg, Init(cfg), steps);
  }

  // ----- Nobody blocks on the error channel -----

  /**
   * Every sender sends at most once, so a channel with one slot per inbound and one for the admin server
   * has room whenever somebody is about to send, although Run receives at most one error.
   */
  lemma SendersNeverBlock(cfg: Config, s: State, i: nat)
    requires Inv(cfg, s) && i < |cfg.inbounds|
    ensures s.loops[i] == Failed ==> s.errors < ErrorCapacity(cfg)
    ensures s.admin == AdminFailed ==> s.errors < ErrorCapacity(cfg)
    ensures 0 <= s.errors <= ErrorCapacity(cfg)
  {
    if s.loops[i] == Failed { CountLoopsMissing(s.loops, i, HasSent); }
  }

  /** The admin server, and so /readyz, only answers once every inbound listens. */
  lemma AdminServesWhenReady(cfg: Config, s: State)
    requires Inv(cfg, s) && s.admin != AdminOff
    ensures s.bound == |cfg.inbounds|
  {
  }

  // ----- Shutdown -----

  /**
   * Once waitConnections has begun, on any exit path, no step adds to the connections: every accept
   * loop that was started has finished, and the count only falls.
   */
  lemma NoAddAfterWaitBegins(cfg: Config, s: State, step: Step)
    requires Inv(cfg, s) && WaitingAtEnd(s.main) && Enabled(cfg, s, step)
    ensures !step.LoopStep?
    ensures
      var t := Apply(cfg, s, step);
      && WaitingAtEnd(t.main) && t.loops == s.loops && |t.handlers| == |s.handlers|
      && t.connections == (if step.HandlerStep? && step.h == ConnectionDone then s.connections - 1 else s.connections)
  {
    hide Accounts, Phases, Tallies, NextHandler, Tally;
    PhasesShape(cfg, s);
    if step.LoopStep? { LoopEnabledIsRunning(cfg, s, step.i, step.l); }
  }

  /** So from there on, over any further run: no new handler, no accept loop moves, and the count never rises. */
  lemma {:induction false} NoAddInRest(cfg: Config, s: State, steps: seq<Step>)
    requires Inv(cfg, s) && WaitingAtEnd(s.main) && Runs(cfg, s, steps)
    ensures
      var t := Exec(cfg, s, steps);
      && WaitingAtEnd(t.main) && t.loops == s.loops && |t.handlers| == |s.handlers| && 0 <= t.connections <= s.connections
    decreases |steps|
  {
    hide Inv, Apply, Enabled;
    if steps == [] {
      ConnectionsNotNegative(cfg, s);
    } else {
      NoAddAfterWaitBegins(cfg, s, steps[0]);
      StepKeeps(cfg, s, steps[0]);
      NoAddInRest(cfg, Apply(cfg, s, steps[0]), steps[1..]);
    }
  }

  lemma ConnectionsNotNegative(cfg: Config, s: State)
    requires Inv(cfg, s)
    ensures s.connections >= 0
  {
  }

  lemma {:induction false} NobodyAlive(hs: seq<Handler>)
    requires Count(hs, Alive) == 0
    ensures forall h <- hs :: h.pc == Gone
  {
    forall h | h in hs ensures h.pc == Gone {
      var k :| 0 <= k < |hs| && hs[k] == h;
      if h.pc != Gone { CountMember(hs, k, Alive); }
    }
  }

  lemma {:induction false} GoneHaveNo(hs: seq<Handler>, t: Trait)
    requires (forall h <- hs :: h.pc == Gone) && (t == Active || t.HoldsToken?)
    ensures Count(hs, t) == 0
  {
    if hs != [] {
      assert hs[|hs| - 1] in hs;
      GoneHaveNo(hs[..|hs| - 1], t);
    }
  }

  /**
   * If the wait ends through the done channel rather than the grace timer, every handler has ended, the
   * active gauge is 0 and no token is held.
   */
  lemma DrainedMeansIdle(cfg: Config, s: State)
    requires Inv(cfg, s) && s.main == Returned(true)
    ensures s.connections == 0 && s.metrics.active == 0
    ensures forall h <- s.handlers :: h.pc == Gone
    ensures forall i :: 0 <= i < |cfg.inbounds| ==> s.tokens[i] == 0
    ensures s.metrics.ended == s.metrics.total
  {
    NobodyAlive(s.handlers);
    GoneHaveNo(s.handlers, Active);
    forall i | 0 <= i < |cfg.inbounds| ensures s.tokens[i] == 0 {
      assert InboundAccounts(cfg, s, i);
      GoneHaveNo(s.handlers, HoldsToken(i));
      NothingRunning(s, i);
    }
    BeginsAndEnds(s.handlers);
    GoneHaveNoBegin(s.handlers);
  }

  lemma {:induction false} GoneHaveNoBegin(hs: seq<Handler>)
    requires forall h <- hs :: h.pc == Gone
    ensures Count(hs, BetweenBegins) == 0
  {
    if hs != [] {
      assert hs[|hs| - 1] in hs;
      GoneHaveNoBegin(hs[..|hs| - 1]);
    }
  }

  // ----- Every run -----

  /**
   * After any run from the start, for every inbound: the tokens are exactly those held and within the
   * limit, every accepted connection is accounted for, and a sender finds room; the gauge and the error
   * counters are exact; and an admin server means that every inbound's accept loop was started.
   */
  lemma EveryRun(cfg: Config, steps: seq<Step>, i: nat)
    requires Runs(cfg, Init(cfg), steps) && i < |cfg.inbounds|
    ensures
      var s := Exec(cfg, Init(cfg), steps);
      && Shaped(cfg, s)
      && (cfg.inbounds[i].maxConnections > 0 ==>
            && s.tokens[i] == Count(s.handlers, HoldsToken(i)) + One(Pending(s.loops[i]))
            && s.tokens[i] <= cfg.inbounds[i].maxConnections)
      && s.acceptedBy[i] == s.rejectedBy[i] + Count(s.handlers, From(i)) + One(LoopHas(s.loops[i], OnWayIn(i)))
      && (s.loops[i] == Failed || s.admin == AdminFailed ==> s.errors < ErrorCapacity(cfg))
      && ((forall j :: 0 <= j < |cfg.inbounds| ==> cfg.inbounds[j].maxConnections > 0) ==>
            0 <= s.metrics.active <= TotalLimit(cfg, |cfg.inbounds|))
      && s.metrics.transport + s.metrics.handshake + s.metrics.proxy == Count(s.handlers, FailedAtAll) <= s.metrics.total
      && s.metrics.active + s.metrics.ended == s.metrics.total + Count(s.handlers, BetweenBegins)
      && (s.admin != AdminOff ==> s.loops[i] != NotStarted)
  {
    hide Count, LoopHas, Accounts, Tallies, Init;
    var s := Exec(cfg, Init(cfg), steps);
    Reachable(cfg, steps);
    PhasesShape(cfg, s);
    Admission(cfg, s, i);
    SendersNeverBlock(cfg, s, i);
    if forall j :: 0 <= j < |cfg.inbounds| ==> cfg.inbounds[j].maxConnections > 0 { ActiveBounded(cfg, s); }
    ErrorAccounting(cfg, s);
    if s.admin != AdminOff { AdminServesWhenReady(cfg, s); }
  }
}
