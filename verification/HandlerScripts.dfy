/**
 * What happens to one connection, told from the outcomes of the calls it makes: which steps its handler
 * takes, which error is counted, and that a handler does nothing else.
 */
module HandlerScripts {
  import opened ServiceRun
  import opened Wrappers

  datatype Dial = Dialed | TransportFails | HandshakeFails

  datatype Request =
    | Unreadable
    | Unsupported
    | Connect(dialOk: bool, answerOk: bool, pipeOk: bool)
    | Associate(listenOk: bool, answerOk: bool, pipeOk: bool)

  /** A connection of a tcp inbound, or of a server inbound with its relay or (which validation excludes) without. */
  datatype Script =
    | Forward(dial: Dial, pipeOk: bool)
    | Serve(handshakeOk: bool, request: Request)
    | NoRelay

  predicate OnServer(script: Script) { !script.Forward? }

  /** The error counter the connection adds one to, if any. */
  function Counted(script: Script): Option<ErrorKind> {
    match script
    case Forward(TransportFails, _) => Some(Transport)
    case Forward(HandshakeFails, _) => Some(Handshake)
    case Forward(Dialed, pipeOk) => if pipeOk then None else Some(Proxy)
    case NoRelay => Some(Proxy)
    case Serve(false, _) => Some(Handshake)
    case Serve(true, Unreadable) => Some(Proxy)
    case Serve(true, Unsupported) => Some(Proxy)
    case Serve(true, Connect(dialOk, answerOk, pipeOk)) =>
      if !dialOk then Some(Transport) else if answerOk && pipeOk then None else Some(Proxy)
    case Serve(true, Associate(listenOk, answerOk, pipeOk)) =>
      if !listenOk then Some(Transport) else if answerOk && pipeOk then None else Some(Proxy)
  }

  /** The deferred calls, last in first out. */
  const DEFERRED := [CloseLocal, EndActive, Release, ConnectionDone]

  function PipeActs(ok: bool): seq<HandlerAct> { [if ok then Finish else Fail(Proxy)] + DEFERRED }

  function ConnectActs(dialOk: bool, answerOk: bool, pipeOk: bool): seq<HandlerAct> {
    if !dialOk then [Fail(Transport)] + DEFERRED
    else if !answerOk then [Advance(TcpResponding), Fail(Proxy)] + DEFERRED
    else [Advance(TcpResponding), Advance(TcpPiping)] + PipeActs(pipeOk)
  }

  function AssociateActs(listenOk: bool, answerOk: bool, pipeOk: bool): seq<HandlerAct> {
    if !listenOk then [Fail(Transport)] + DEFERRED
    else if !answerOk then [Advance(UdpResponding), Fail(Proxy)] + DEFERRED
    else [Advance(UdpResponding), Advance(UdpPiping)] + PipeActs(pipeOk)
  }

  function RequestActs(r: Request): seq<HandlerAct> {
    match r
    case Unreadable => [Fail(Proxy)] + DEFERRED
    case Unsupported => [Fail(Proxy)] + DEFERRED
    case Connect(dialOk, answerOk, pipeOk) => [Advance(TcpDialing)] + ConnectActs(dialOk, answerOk, pipeOk)
    case Associate(listenOk, answerOk, pipeOk) => [Advance(UdpListening)] + AssociateActs(listenOk, answerOk, pipeOk)
  }

  function ServingActs(script: Script): seq<HandlerAct> {
    match script
    case NoRelay => [Fail(Proxy)] + DEFERRED
    case Forward(Dialed, pipeOk) => [Advance(Dialing), Advance(Piping)] + PipeActs(pipeOk)
    case Forward(TransportFails, _) => [Advance(Dialing), Fail(Transport)] + DEFERRED
    case Forward(HandshakeFails, _) => [Advance(Dialing), Fail(Handshake)] + DEFERRED
    case Serve(false, _) => [Advance(Handshaking), Fail(Handshake)] + DEFERRED
    case Serve(true, request) => [Advance(Handshaking), Advance(ReadingRequest)] + RequestActs(request)
  }

  /** The steps of the handler from its start to its Done. */
  function Acts(script: Script): seq<HandlerAct> {
    [BeginActive, BeginTotal] + ServingActs(script)
  }

  predicate Path(server: bool, h: Handler, acts: seq<HandlerAct>)
    decreases |acts|
  {
    acts == [] || (CanAct(server, h.pc, acts[0]) && Path(server, NextHandler(h, acts[0]), acts[1..]))
  }

  function End(h: Handler, acts: seq<HandlerAct>): Handler
    decreases |acts|
  {
    if acts == [] then h else End(NextHandler(h, acts[0]), acts[1..])
  }

  function TallyAll(m: Counters, acts: seq<HandlerAct>): Counters
    decreases |acts|
  {
    if acts == [] then m else TallyAll(Tally(m, acts[0]), acts[1..])
  }

  function AddError(m: Counters, error: Option<ErrorKind>): Counters {
    match error
    case None => m
    case Some(Transport) => m.(transport := m.transport + 1)
    case Some(Handshake) => m.(handshake := m.handshake + 1)
    case Some(Proxy) => m.(proxy := m.proxy + 1)
  }

  lemma PathCons(server: bool, h: Handler, m: Counters, a: HandlerAct, rest: seq<HandlerAct>)
    ensures Path(server, h, [a] + rest) <==> CanAct(server, h.pc, a) && Path(server, NextHandler(h, a), rest)
    ensures End(h, [a] + rest) == End(NextHandler(h, a), rest) && TallyAll(m, [a] + rest) == TallyAll(Tally(m, a), rest)
  {
    assert ([a] + rest)[1..] == rest;
  }

  /** A handler that has acts `acts` before it, ends with `error` counted in `m` and one connection less active. */
  ghost predicate Concludes(server: bool, h: Handler, m: Counters, acts: seq<HandlerAct>, error: Option<ErrorKind>, done: Counters) {
    Path(server, h, acts) && End(h, acts) == Handler(h.inbound, Gone, error) && TallyAll(m, acts) == done
  }

  lemma DeferredConclude(server: bool, h: Handler, m: Counters)
    requires h.pc == Unwinding
    ensures Concludes(server, h, m, DEFERRED, h.error, m.(active := m.active - 1, ended := m.ended + 1))
  {
    var a, b := NextHandler(h, CloseLocal), NextHandler(NextHandler(h, CloseLocal), EndActive);
    var c, n := NextHandler(b, Release), m.(active := m.active - 1, ended := m.ended + 1);
    PathCons(server, c, n, ConnectionDone, []);
    PathCons(server, b, n, Release, [ConnectionDone]);
    PathCons(server, a, m, EndActive, [Release, ConnectionDone]);
    PathCons(server, h, m, CloseLocal, [EndActive, Release, ConnectionDone]);
    assert [Release] + [ConnectionDone] == [Release, ConnectionDone];
    assert [EndActive] + [Release, ConnectionDone] == [EndActive, Release, ConnectionDone];
    assert [CloseLocal] + [EndActive, Release, ConnectionDone] == DEFERRED && [ConnectionDone] + [] == [ConnectionDone];
  }

  /** One act that ends the serving, and the deferred calls. */
  lemma LastConcludes(server: bool, h: Handler, m: Counters, a: HandlerAct)
    requires CanAct(server, h.pc, a) && (a.Fail? || a.Finish?) && h.error == None
    ensures
      var error := if a.Fail? then Some(a.kind) else None;
      Concludes(server, h, m, [a] + DEFERRED, error, AddError(m, error).(active := m.active - 1, ended := m.ended + 1))
  {
    PathCons(server, h, m, a, DEFERRED);
    DeferredConclude(server, NextHandler(h, a), Tally(m, a));
  }

  lemma StepConcludes(server: bool, h: Handler, m: Counters, a: HandlerAct, rest: seq<HandlerAct>, error: Option<ErrorKind>, done: Counters)
    requires CanAct(server, h.pc, a) && Concludes(server, NextHandler(h, a), Tally(m, a), rest, error, done)
    ensures Concludes(server, h, m, [a] + rest, error, done)
  {
    PathCons(server, h, m, a, rest);
  }

  lemma AdvanceConcludes(server: bool, h: Handler, m: Counters, to: Stage, rest: seq<HandlerAct>, error: Option<ErrorKind>, done: Counters)
    requires h.pc.Serving? && h.error == None && Advances(server, h.pc.stage, to)
    requires Concludes(server, Handler(h.inbound, Serving(to), None), m, rest, error, done)
    ensures Concludes(server, h, m, [Advance(to)] + rest, error, done)
  {
    StepConcludes(server, h, m, Advance(to), rest, error, done);
  }

  function At(i: nat, stage: Stage): Handler { Handler(i, Serving(stage), None) }

  function Closed(m: Counters, error: Option<ErrorKind>): Counters {
    AddError(m, error).(active := m.active - 1, ended := m.ended + 1)
  }

  lemma PipeConcludes(server: bool, i: nat, stage: Stage, m: Counters, ok: bool)
    requires stage in {Piping, TcpPiping, UdpPiping}
    ensures var error := if ok then None else Some(Proxy); Concludes(server, At(i, stage), m, PipeActs(ok), error, Closed(m, error))
  {
    LastConcludes(server, At(i, stage), m, if ok then Finish else Fail(Proxy));
  }

  /** TCP connect and UDP associate have the same shape: open, answer, relay. */
  lemma OpenConcludes(i: nat, m: Counters, opening: Stage, answering: Stage, relaying: Stage, openOk: bool, answerOk: bool, pipeOk: bool)
    requires (opening, answering, relaying) == (TcpDialing, TcpResponding, TcpPiping) || (opening, answering, relaying) == (UdpListening, UdpResponding, UdpPiping)
    ensures
      var acts := if opening == TcpDialing then ConnectActs(openOk, answerOk, pipeOk) else AssociateActs(openOk, answerOk, pipeOk);
      var error := if !openOk then Some(Transport) else if answerOk && pipeOk then None else Some(Proxy);
      Concludes(true, At(i, opening), m, acts, error, Closed(m, error))
  {
    hide Concludes;
    if !openOk {
      LastConcludes(true, At(i, opening), m, Fail(Transport));
    } else if !answerOk {
      LastConcludes(true, At(i, answering), m, Fail(Proxy));
      AdvanceConcludes(true, At(i, opening), m, answering, [Fail(Proxy)] + DEFERRED, Some(Proxy), Closed(m, Some(Proxy)));
      assert [Advance(answering)] + ([Fail(Proxy)] + DEFERRED) == [Advance(answering), Fail(Proxy)] + DEFERRED;
    } else {
      var error := if pipeOk then None else Some(Proxy);
      PipeConcludes(true, i, relaying, m, pipeOk);
      AdvanceConcludes(true, At(i, answering), m, relaying, PipeActs(pipeOk), error, Closed(m, error));
      AdvanceConcludes(true, At(i, opening), m, answering, [Advance(relaying)] + PipeActs(pipeOk), error, Closed(m, error));
      assert [Advance(answering)] + ([Advance(relaying)] + PipeActs(pipeOk)) == [Advance(answering), Advance(relaying)] + PipeActs(pipeOk);
    }
  }

  lemma RequestConcludes(i: nat, m: Counters, request: Request)
    ensures
      var error := Counted(Serve(true, request));
      Concludes(true, At(i, ReadingRequest), m, RequestActs(request), error, Closed(m, error))
  {
    hide Concludes;
    var error := Counted(Serve(true, request));
    match request
    case Unreadable => LastConcludes(true, At(i, ReadingRequest), m, Fail(Proxy));
    case Unsupported => LastConcludes(true, At(i, ReadingRequest), m, Fail(Proxy));
    case Connect(dialOk, answerOk, pipeOk) =>
      OpenConcludes(i, m, TcpDialing, TcpResponding, TcpPiping, dialOk, answerOk, pipeOk);
      AdvanceConcludes(true, At(i, ReadingRequest), m, TcpDialing, ConnectActs(dialOk, answerOk, pipeOk), error, Closed(m, error));
    case Associate(listenOk, answerOk, pipeOk) =>
      OpenConcludes(i, m, UdpListening, UdpResponding, UdpPiping, listenOk, answerOk, pipeOk);
      AdvanceConcludes(true, At(i, ReadingRequest), m, UdpListening, AssociateActs(listenOk, answerOk, pipeOk), error, Closed(m, error));
  }

  lemma ServingConcludes(i: nat, m: Counters, script: Script)
    ensures Concludes(OnServer(script), At(i, Dispatch), m, ServingActs(script), Counted(script), Closed(m, Counted(script)))
  {
    hide Concludes;
    var error := Counted(script);
    var server := OnServer(script);
    match script
    case NoRelay => LastConcludes(server, At(i, Dispatch), m, Fail(Proxy));
    case Forward(Dialed, pipeOk) =>
      PipeConcludes(server, i, Piping, m, pipeOk);
      AdvanceConcludes(server, At(i, Dialing), m, Piping, PipeActs(pipeOk), error, Closed(m, error));
      AdvanceConcludes(server, At(i, Dispatch), m, Dialing, [Advance(Piping)] + PipeActs(pipeOk), error, Closed(m, error));
      assert [Advance(Dialing)] + ([Advance(Piping)] + PipeActs(pipeOk)) == [Advance(Dialing), Advance(Piping)] + PipeActs(pipeOk);
    case Forward(TransportFails, _) => FailsSecond(server, i, m, Dialing, Transport);
    case Forward(HandshakeFails, _) => FailsSecond(server, i, m, Dialing, Handshake);
    case Serve(false, _) => FailsSecond(server, i, m, Handshaking, Handshake);
    case Serve(true, request) =>
      RequestConcludes(i, m, request);
      AdvanceConcludes(server, At(i, Handshaking), m, ReadingRequest, RequestActs(request), error, Closed(m, error));
      AdvanceConcludes(server, At(i, Dispatch), m, Handshaking, [Advance(ReadingRequest)] + RequestActs(request), error, Closed(m, error));
      assert [Advance(Handshaking)] + ([Advance(ReadingRequest)] + RequestActs(request)) == [Advance(Handshaking), Advance(ReadingRequest)] + RequestActs(request);
  }

  lemma FailsSecond(server: bool, i: nat, m: Counters, stage: Stage, kind: ErrorKind)
    requires Advances(server, Dispatch, stage) && CanFail(server, stage, kind)
    ensures Concludes(server, At(i, Dispatch), m, [Advance(stage), Fail(kind)] + DEFERRED, Some(kind), Closed(m, Some(kind)))
  {
    hide Concludes;
    LastConcludes(server, At(i, stage), m, Fail(kind));
    AdvanceConcludes(server, At(i, Dispatch), m, stage, [Fail(kind)] + DEFERRED, Some(kind), Closed(m, Some(kind)));
    assert [Advance(stage)] + ([Fail(kind)] + DEFERRED) == [Advance(stage), Fail(kind)] + DEFERRED;
  }

  /**
   * Every combination of outcomes is a path of the handler: it ends gone, with exactly the error those
   * outcomes call for, one more in total and in the counter of that error, and active as before.
   */
  lemma EveryScriptIsPath(i: nat, m: Counters, script: Script)
    ensures Path(OnServer(script), Handler(i, Spawned, None), Acts(script))
    ensures End(Handler(i, Spawned, None), Acts(script)) == Handler(i, Gone, Counted(script))
    ensures TallyAll(m, Acts(script)) == AddError(m, Counted(script)).(total := m.total + 1, ended := m.ended + 1)
  {
    hide Concludes, Path, End, TallyAll, ServingActs, Counted, AddError;
    var server, n := OnServer(script), m.(active := m.active + 1, total := m.total + 1);
    ServingConcludes(i, n, script);
    ConcludesIs(server, At(i, Dispatch), n, ServingActs(script), Counted(script), Closed(n, Counted(script)));
    PathCons(server, Handler(i, Activated, None), m.(active := m.active + 1), BeginTotal, ServingActs(script));
    PathCons(server, Handler(i, Spawned, None), m, BeginActive, [BeginTotal] + ServingActs(script));
    assert [BeginActive] + ([BeginTotal] + ServingActs(script)) == Acts(script);
    ErrorsCommute(m, Counted(script));
  }

  lemma ErrorsCommute(m: Counters, error: Option<ErrorKind>)
    ensures
      Closed(m.(active := m.active + 1, total := m.total + 1), error) ==
      AddError(m, error).(total := m.total + 1, ended := m.ended + 1)
  {
  }

  lemma ConcludesIs(server: bool, h: Handler, m: Counters, acts: seq<HandlerAct>, error: Option<ErrorKind>, done: Counters)
    requires Concludes(server, h, m, acts, error, done)
    ensures Path(server, h, acts) && End(h, acts) == Handler(h.inbound, Gone, error) && TallyAll(m, acts) == done
  {
  }

  // ----- And a handler does nothing else -----

  /** A path that ends takes a first step and goes on. */
  lemma FirstOfPath(server: bool, h: Handler, acts: seq<HandlerAct>)
    requires Path(server, h, acts) && End(h, acts).pc == Gone && h.pc != Gone
    ensures acts != [] && CanAct(server, h.pc, acts[0]) && acts == [acts[0]] + acts[1..]
    ensures Path(server, NextHandler(h, acts[0]), acts[1..]) && End(NextHandler(h, acts[0]), acts[1..]).pc == Gone
  {
  }

  lemma FromUnwinding(server: bool, h: Handler, acts: seq<HandlerAct>)
    requires h.pc == Unwinding && Path(server, h, acts) && End(h, acts).pc == Gone
    ensures acts == DEFERRED
  {
    hide Path, End;
    FirstOfPath(server, h, acts);
    var a, as1 := NextHandler(h, acts[0]), acts[1..];
    FirstOfPath(server, a, as1);
    var b, as2 := NextHandler(a, as1[0]), as1[1..];
    FirstOfPath(server, b, as2);
    var c, as3 := NextHandler(b, as2[0]), as2[1..];
    FirstOfPath(server, c, as3);
    GoneIsEnd(server, NextHandler(c, as3[0]), as3[1..]);
  }

  lemma GoneIsEnd(server: bool, h: Handler, acts: seq<HandlerAct>)
    requires h.pc == Gone && Path(server, h, acts)
    ensures acts == []
  {
  }

  /** What can follow at a point of the serving. */
  lemma FromServing(server: bool, h: Handler, acts: seq<HandlerAct>)
    requires h.pc.Serving? && Path(server, h, acts) && End(h, acts).pc == Gone
    ensures acts != [] && CanAct(server, h.pc, acts[0])
    ensures acts[0].Fail? || acts[0].Finish? ==> acts == [acts[0]] + DEFERRED
    ensures acts[0].Advance? ==>
              && acts == [acts[0]] + acts[1..] && NextHandler(h, acts[0]).pc == Serving(acts[0].to)
              && Path(server, NextHandler(h, acts[0]), acts[1..]) && End(NextHandler(h, acts[0]), acts[1..]).pc == Gone
  {
    hide Path, End;
    FirstOfPath(server, h, acts);
    if !acts[0].Advance? { FromUnwinding(server, NextHandler(h, acts[0]), acts[1..]); }
  }

  lemma FromPiping(server: bool, h: Handler, acts: seq<HandlerAct>)
    requires h.pc.Serving? && h.pc.stage in {Piping, TcpPiping, UdpPiping} && Path(server, h, acts) && End(h, acts).pc == Gone
    ensures acts == PipeActs(true) || acts == PipeActs(false)
  {
    hide Path, End;
    FromServing(server, h, acts);
  }

  lemma FromOpening(h: Handler, acts: seq<HandlerAct>) returns (openOk: bool, answerOk: bool, pipeOk: bool)
    requires h.pc == Serving(TcpDialing) || h.pc == Serving(UdpListening)
    requires Path(true, h, acts) && End(h, acts).pc == Gone
    ensures acts == if h.pc == Serving(TcpDialing) then ConnectActs(openOk, answerOk, pipeOk) else AssociateActs(openOk, answerOk, pipeOk)
  {
    hide Path, End;
    FromServing(true, h, acts);
    openOk, answerOk, pipeOk := acts[0].Advance?, false, false;
    if openOk {
      var a, as1 := NextHandler(h, acts[0]), acts[1..];
      FromServing(true, a, as1);
      answerOk := as1[0].Advance?;
      if answerOk {
        var as2 := as1[1..];
        FromPiping(true, NextHandler(a, as1[0]), as2);
        pipeOk := as2 == PipeActs(true);
      }
    }
  }

  lemma FromRequest(h: Handler, acts: seq<HandlerAct>) returns (request: Request)
    requires h.pc == Serving(ReadingRequest) && Path(true, h, acts) && End(h, acts).pc == Gone
    ensures acts == RequestActs(request)
  {
    hide Path, End, ConnectActs, AssociateActs;
    FromServing(true, h, acts);
    request := Unreadable;
    if acts[0].Advance? {
      var openOk, answerOk, pipeOk := FromOpening(NextHandler(h, acts[0]), acts[1..]);
      request := if acts[0].to == TcpDialing then Connect(openOk, answerOk, pipeOk) else Associate(openOk, answerOk, pipeOk);
    }
  }

  lemma FromHandshaking(h: Handler, acts: seq<HandlerAct>) returns (script: Script)
    requires h.pc == Serving(Handshaking) && Path(true, h, acts) && End(h, acts).pc == Gone
    ensures OnServer(script) && [Advance(Handshaking)] + acts == ServingActs(script)
  {
    hide Path, End, RequestActs;
    FromServing(true, h, acts);
    script := Serve(false, Unreadable);
    if acts[0].Advance? {
      var request := FromRequest(NextHandler(h, acts[0]), acts[1..]);
      script := Serve(true, request);
    }
  }

  lemma FromDialing(h: Handler, acts: seq<HandlerAct>) returns (script: Script)
    requires h.pc == Serving(Dialing) && Path(false, h, acts) && End(h, acts).pc == Gone
    ensures !OnServer(script) && [Advance(Dialing)] + acts == ServingActs(script)
  {
    hide Path, End;
    FromServing(false, h, acts);
    if acts[0].Advance? {
      FromPiping(false, NextHandler(h, acts[0]), acts[1..]);
      script := Forward(Dialed, acts[1..] == PipeActs(true));
    } else {
      script := Forward(if acts[0] == Fail(Transport) then TransportFails else HandshakeFails, false);
    }
  }

  lemma FromDispatch(server: bool, h: Handler, acts: seq<HandlerAct>) returns (script: Script)
    requires h.pc == Serving(Dispatch) && Path(server, h, acts) && End(h, acts).pc == Gone
    ensures OnServer(script) == server && acts == ServingActs(script)
  {
    hide Path, End, PipeActs, RequestActs;
    FromServing(server, h, acts);
    script := NoRelay;
    if acts[0].Advance? {
      if server {
        script := FromHandshaking(NextHandler(h, acts[0]), acts[1..]);
      } else {
        script := FromDialing(NextHandler(h, acts[0]), acts[1..]);
      }
    }
  }

  /** Whatever a handler does from its start to its end is one of the scripts. */
  lemma EveryPathIsScript(server: bool, i: nat, acts: seq<HandlerAct>) returns (script: Script)
    requires Path(server, Handler(i, Spawned, None), acts) && End(Handler(i, Spawned, None), acts).pc == Gone
    ensures OnServer(script) == server && acts == Acts(script)
  {
    hide Path, End;
    var h := Handler(i, Spawned, None);
    FirstOfPath(server, h, acts);
    var a, as1 := NextHandler(h, acts[0]), acts[1..];
    FirstOfPath(server, a, as1);
    script := FromDispatch(server, NextHandler(a, as1[0]), as1[1..]);
  }
}
