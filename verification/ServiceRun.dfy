/**
 * Service.Run as a protocol: the main goroutine, one accept loop per inbound with its semaphore, one
 * handler per admitted connection, the admin server, the reporter, two wait groups, the error channel
 * and the metrics counters. One step per atomic operation; steps of different goroutines interleave
 * freely. Outcomes the node does not decide (a listen, an accept, a handshake, a dial, a copy, the
 * clock) are the labels of the steps.
 */
module ServiceRun {
  import opened Wrappers

  datatype Inbound = Inbound(maxConnections: nat, server: bool)

  datatype Config = Config(inbounds: seq<Inbound>, admin: bool, kboard: bool)

  // ----- Goroutines -----

  datatype Loop =
    | NotStarted
    | Accepting
    | Holding                  // a connection in hand, before the semaphore
    | Rejecting                // the semaphore was full
    | Admitted                 // token taken (if there is a semaphore), before connections.Add
    | Tracked                  // after connections.Add, before the handler goroutine starts
    | Failed                   // about to send its error
    | Finishing(sent: bool)    // about to call wg.Done
    | Finished(sent: bool)

  /** The counter an error goes to. */
  datatype ErrorKind = Transport | Handshake | Proxy

  /** The points of handleConnection, Handle, handleTCPConnect and handleUDPAssociate that can fail or go on. */
  datatype Stage =
    | Dispatch | Dialing | Piping
    | Handshaking | ReadingRequest
    | TcpDialing | TcpResponding | TcpPiping
    | UdpListening | UdpResponding | UdpPiping

  /** Deferred calls run last in, first out: close, active-1, release the token, Done. */
  datatype Pc = Spawned | Activated | Serving(stage: Stage) | Unwinding | LocalClosed | Ended | Released | Gone

  datatype Handler = Handler(inbound: nat, pc: Pc, error: Option<ErrorKind>)

  datatype Main =
    | Binding(i: nat)          // net.Listen for inbound i comes next
    | StartingAdmin
    | StartingReporter
    | Selecting
    | Cancelling
    | Closing(k: nat)          // closeAll has closed the first k listeners
    | ShuttingAdmin
    | WaitingLoops             // wg.Wait
    | WaitingConnections       // waitConnections
    | Returned(drained: bool)

  datatype Admin = AdminOff | AdminServing | AdminFailed | AdminFinishing(sent: bool) | AdminFinished(sent: bool)

  datatype Reporter = ReporterOff | ReporterIdle | ReporterBusy | ReporterFlushing | ReporterFinishing | ReporterFinished

  /** The counters of Metrics, with the number of endConnection calls as history. */
  datatype Counters = Counters(
    active: int, total: int, rejected: int, transport: int, handshake: int, proxy: int, ended: int)

  datatype State = State(
    main: Main, cancelled: bool, bound: nat, closed: seq<bool>,
    loops: seq<Loop>, admin: Admin, reporter: Reporter,
    wg: int, errors: int, received: int, doneClosed: bool,
    tokens: seq<int>, handlers: seq<Handler>, connections: int, metrics: Counters,
    // history: how often each inbound accepted and rejected
    acceptedBy: seq<int>, rejectedBy: seq<int>)

  function Repeat<T>(x: T, n: nat): (r: seq<T>)
    ensures |r| == n && forall i :: 0 <= i < n ==> r[i] == x
  {
    if n == 0 then [] else Repeat(x, n - 1) + [x]
  }

  function Init(cfg: Config): State {
    var n := |cfg.inbounds|;
    State(if n == 0 then StartingAdmin else Binding(0), false, 0, Repeat(false, n),
          Repeat(NotStarted, n), AdminOff, ReporterOff,
          0, 0, 0, false,
          Repeat(0, n), [], 0, Counters(0, 0, 0, 0, 0, 0, 0),
          Repeat(0, n), Repeat(0, n))
  }

  // ----- Steps -----

  datatype LoopAct = Accept | AcceptFails | TryAcquire | CountRejected | AddConnection | Spawn | SendError | LoopDone

  datatype HandlerAct =
    | BeginActive | BeginTotal | Advance(to: Stage) | Fail(kind: ErrorKind) | Finish
    | CloseLocal | EndActive | Release | ConnectionDone

  datatype MainAct =
    | BindOk | BindFails | AdminOk | AdminFails | StartReporter
    | SelectCancelled | SelectError | Cancel | CloseNext | ShutAdmin | LoopsDone | WaiterDone | Drained | GraceElapsed

  datatype AdminAct = ServeReturnsClosed | ServeFails | AdminSend | AdminDone

  datatype ReporterAct = Tick | ReportDone | SeeCancelled | FlushDone | ReporterDone

  datatype Step =
    | ParentCancelled
    | MainStep(m: MainAct)
    | LoopStep(i: nat, l: LoopAct)
    | HandlerStep(k: nat, h: HandlerAct)
    | AdminStep(a: AdminAct)
    | ReporterStep(r: ReporterAct)

  /** make(chan error, len(inbounds)+1). */
  function ErrorCapacity(cfg: Config): nat { |cfg.inbounds| + 1 }

  predicate MainEnabled(cfg: Config, s: State, m: MainAct) {
    match m
    case BindOk => s.main.Binding? && s.main.i < |cfg.inbounds|
    case BindFails => s.main.Binding? && s.main.i < |cfg.inbounds|
    case AdminOk => s.main == StartingAdmin
    case AdminFails => s.main == StartingAdmin && cfg.admin
    case StartReporter => s.main == StartingReporter
    case SelectCancelled => s.main == Selecting && s.cancelled
    case SelectError => s.main == Selecting && s.errors > 0
    case Cancel => s.main == Cancelling
    case CloseNext => s.main.Closing?
    case ShutAdmin => s.main == ShuttingAdmin
    case LoopsDone => s.main == WaitingLoops && s.wg == 0
    case WaiterDone => s.main == WaitingConnections && s.connections == 0
    case Drained => s.main == WaitingConnections && s.doneClosed
    case GraceElapsed => s.main == WaitingConnections
  }

  function ApplyMain(cfg: Config, s: State, m: MainAct): State
    requires MainEnabled(cfg, s, m) && |s.loops| == |s.closed| == |cfg.inbounds| && s.bound <= |s.closed|
  {
    match m
    case BindOk =>
      var i := s.main.i;
      s.(loops := s.loops[i := Accepting], bound := s.bound + 1, wg := s.wg + 1,
         main := if i + 1 == |cfg.inbounds| then StartingAdmin else Binding(i + 1))
    case BindFails => s.(main := Cancelling)
    case AdminOk =>
      if cfg.admin then s.(admin := AdminServing, wg := s.wg + 1, main := StartingReporter)
      else s.(main := StartingReporter)
    case AdminFails => s.(main := Cancelling)
    case StartReporter =>
      if cfg.kboard then s.(reporter := ReporterBusy, wg := s.wg + 1, main := Selecting)
      else s.(main := Selecting)
    case SelectCancelled => s.(main := Cancelling)
    case SelectError => s.(main := Cancelling, errors := s.errors - 1, received := s.received + 1)
    case Cancel => s.(main := Closing(0), cancelled := true)
    case CloseNext =>
      var k := s.main.k;
      if k < s.bound then s.(closed := s.closed[k := true], main := Closing(k + 1))
      else s.(main := ShuttingAdmin)
    case ShutAdmin => s.(main := WaitingLoops)
    case LoopsDone => s.(main := WaitingConnections)
    case WaiterDone => s.(doneClosed := true)
    case Drained => s.(main := Returned(true))
    case GraceElapsed => s.(main := Returned(false))
  }

  predicate CanLoop(l: Loop, a: LoopAct, isClosed: bool) {
    match a
    case Accept => l == Accepting && !isClosed
    case AcceptFails => l == Accepting
    case TryAcquire => l == Holding
    case CountRejected => l == Rejecting
    case AddConnection => l == Admitted
    case Spawn => l == Tracked
    case SendError => l == Failed
    case LoopDone => l.Finishing?
  }

  predicate LoopEnabled(cfg: Config, s: State, i: nat, a: LoopAct) {
    && i < |cfg.inbounds| && |s.loops| == |s.closed| == |cfg.inbounds|
    && CanLoop(s.loops[i], a, s.closed[i])
    && (a == SendError ==> s.errors < ErrorCapacity(cfg))
  }

  /** A failed Accept is a cancellation when the context ended or the listener was closed; a full semaphore rejects. */
  function NextLoop(l: Loop, a: LoopAct, stopped: bool, full: bool): Loop {
    match a
    case Accept => Holding
    case AcceptFails => if stopped then Finishing(false) else Failed
    case TryAcquire => if full then Rejecting else Admitted
    case CountRejected => Accepting
    case AddConnection => Tracked
    case Spawn => Accepting
    case SendError => Finishing(true)
    case LoopDone => Finished(l.Finishing? && l.sent)
  }

  function Bump(xs: seq<int>, i: nat, b: bool): (r: seq<int>)
    requires i < |xs|
    ensures |r| == |xs|
  {
    if b then xs[i := xs[i] + 1] else xs
  }

  function ApplyLoop(cfg: Config, s: State, i: nat, a: LoopAct): State
    requires LoopEnabled(cfg, s, i, a) && |s.tokens| == |s.acceptedBy| == |s.rejectedBy| == |cfg.inbounds|
  {
    var limit := cfg.inbounds[i].maxConnections;
    var full := limit > 0 && s.tokens[i] >= limit;
    s.(loops := s.loops[i := NextLoop(s.loops[i], a, s.cancelled || s.closed[i], full)],
       tokens := Bump(s.tokens, i, a == TryAcquire && limit > 0 && !full),
       acceptedBy := Bump(s.acceptedBy, i, a == Accept),
       rejectedBy := Bump(s.rejectedBy, i, a == CountRejected),
       metrics := if a == CountRejected then s.metrics.(rejected := s.metrics.rejected + 1) else s.metrics,
       connections := if a == AddConnection then s.connections + 1 else s.connections,
       handlers := if a == Spawn then s.handlers + [Handler(i, Spawned, None)] else s.handlers,
       errors := if a == SendError then s.errors + 1 else s.errors,
       wg := if a == LoopDone then s.wg - 1 else s.wg)
  }

  /** The ways a connection can go on without an error. */
  predicate Advances(server: bool, at: Stage, to: Stage) {
    match at
    case Dispatch => to == if server then Handshaking else Dialing
    case Dialing => to == Piping
    case Handshaking => to == ReadingRequest
    case ReadingRequest => to == TcpDialing || to == UdpListening
    case TcpDialing => to == TcpResponding
    case TcpResponding => to == TcpPiping
    case UdpListening => to == UdpResponding
    case UdpResponding => to == UdpPiping
    case _ => false
  }

  /** The error each point counts before it returns. */
  predicate CanFail(server: bool, at: Stage, kind: ErrorKind) {
    match at
    case Dispatch => server && kind == Proxy            // no relay for the inbound
    case Dialing => kind == Handshake || kind == Transport
    case Handshaking => kind == Handshake
    case TcpDialing => kind == Transport
    case UdpListening => kind == Transport
    case _ => kind == Proxy
  }

  predicate CanAct(server: bool, pc: Pc, a: HandlerAct) {
    match a
    case BeginActive => pc == Spawned
    case BeginTotal => pc == Activated
    case Advance(to) => pc.Serving? && Advances(server, pc.stage, to)
    case Fail(kind) => pc.Serving? && CanFail(server, pc.stage, kind)
    case Finish => pc.Serving? && pc.stage in {Piping, TcpPiping, UdpPiping}
    case CloseLocal => pc == Unwinding
    case EndActive => pc == LocalClosed
    case Release => pc == Ended
    case ConnectionDone => pc == Released
  }

  predicate HandlerEnabled(cfg: Config, s: State, k: nat, a: HandlerAct) {
    k < |s.handlers| && s.handlers[k].inbound < |cfg.inbounds| &&
    CanAct(cfg.inbounds[s.handlers[k].inbound].server, s.handlers[k].pc, a)
  }

  function NextPc(a: HandlerAct): Pc {
    match a
    case BeginActive => Activated
    case BeginTotal => Serving(Dispatch)
    case Advance(to) => Serving(to)
    case Fail(_) => Unwinding
    case Finish => Unwinding
    case CloseLocal => LocalClosed
    case EndActive => Ended
    case Release => Released
    case ConnectionDone => Gone
  }

  function NextHandler(h: Handler, a: HandlerAct): Handler {
    Handler(h.inbound, NextPc(a), if a.Fail? then Some(a.kind) else h.error)
  }

  function Tally(m: Counters, a: HandlerAct): Counters {
    match a
    case BeginActive => m.(active := m.active + 1)
    case BeginTotal => m.(total := m.total + 1)
    case Fail(Transport) => m.(transport := m.transport + 1)
    case Fail(Handshake) => m.(handshake := m.handshake + 1)
    case Fail(Proxy) => m.(proxy := m.proxy + 1)
    case EndActive => m.(active := m.active - 1, ended := m.ended + 1)
    case _ => m
  }

  function ApplyHandler(cfg: Config, s: State, k: nat, a: HandlerAct): State
    requires HandlerEnabled(cfg, s, k, a) && |s.tokens| == |cfg.inbounds|
  {
    var i := s.handlers[k].inbound;
    s.(handlers := s.handlers[k := NextHandler(s.handlers[k], a)],
       metrics := Tally(s.metrics, a),
       tokens := if a.Release? && cfg.inbounds[i].maxConnections > 0 then s.tokens[i := s.tokens[i] - 1] else s.tokens,
       connections := if a.ConnectionDone? then s.connections - 1 else s.connections)
  }

  predicate AdminEnabled(cfg: Config, s: State, a: AdminAct) {
    match a
    case ServeReturnsClosed => s.admin == AdminServing && s.main in {ShuttingAdmin, WaitingLoops}
    case ServeFails => s.admin == AdminServing
    case AdminSend => s.admin == AdminFailed && s.errors < ErrorCapacity(cfg)
    case AdminDone => s.admin.AdminFinishing?
  }

  function ApplyAdmin(cfg: Config, s: State, a: AdminAct): State
    requires AdminEnabled(cfg, s, a)
  {
    match a
    case ServeReturnsClosed => s.(admin := AdminFinishing(false))
    case ServeFails => s.(admin := AdminFailed)
    case AdminSend => s.(admin := AdminFinishing(true), errors := s.errors + 1)
    case AdminDone => s.(admin := AdminFinished(s.admin.sent), wg := s.wg - 1)
  }

  predicate ReporterEnabled(s: State, r: ReporterAct) {
    match r
    case Tick => s.reporter == ReporterIdle
    case ReportDone => s.reporter == ReporterBusy
    case SeeCancelled => s.reporter == ReporterIdle && s.cancelled
    case FlushDone => s.reporter == ReporterFlushing
    case ReporterDone => s.reporter == ReporterFinishing
  }

  function ApplyReporter(s: State, r: ReporterAct): State
    requires ReporterEnabled(s, r)
  {
    match r
    case Tick => s.(reporter := ReporterBusy)
    case ReportDone => s.(reporter := ReporterIdle)
    case SeeCancelled => s.(reporter := ReporterFlushing)
    case FlushDone => s.(reporter := ReporterFinishing)
    case ReporterDone => s.(reporter := ReporterFinished, wg := s.wg - 1)
  }

  predicate Enabled(cfg: Config, s: State, step: Step) {
    match step
    case ParentCancelled => true
    case MainStep(m) => MainEnabled(cfg, s, m)
    case LoopStep(i, l) => LoopEnabled(cfg, s, i, l)
    case HandlerStep(k, h) => HandlerEnabled(cfg, s, k, h)
    case AdminStep(a) => AdminEnabled(cfg, s, a)
    case ReporterStep(r) => ReporterEnabled(s, r)
  }

  predicate Shaped(cfg: Config, s: State) {
    && |s.closed| == |s.loops| == |s.tokens| == |s.acceptedBy| == |s.rejectedBy| == |cfg.inbounds|
    && s.bound <= |cfg.inbounds|
  }

  function Apply(cfg: Config, s: State, step: Step): State
    requires Shaped(cfg, s) && Enabled(cfg, s, step)
  {
    match step
    case ParentCancelled => s.(cancelled := true)
    case MainStep(m) => ApplyMain(cfg, s, m)
    case LoopStep(i, l) => ApplyLoop(cfg, s, i, l)
    case HandlerStep(k, h) => ApplyHandler(cfg, s, k, h)
    case AdminStep(a) => ApplyAdmin(cfg, s, a)
    case ReporterStep(r) => ApplyReporter(s, r)
  }
}
