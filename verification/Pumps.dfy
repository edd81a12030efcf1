/**
 * The relay pumps: two workers, a channel of capacity 2 and one receiver. `pipe` of the service and of
 * the server relay copies bytes both ways and closes both ends after the first outcome to unblock the
 * second worker; pipeUDPAssociate has the same shape and may also leave through its context.
 */
module Pumps {
  import opened Wrappers

  datatype Failure = EOF | NetClosed | Other(code: int)

  /** normalizeCopyError: the ends of a stream are not errors. */
  function Normalize(e: Option<Failure>): Option<Failure> {
    if e == Some(EOF) || e == Some(NetClosed) then None else e
  }

  type Bytes = seq<bv8>

  /** Up copies from the local (or client) side to the upstream, Down the other way. */
  datatype Dir = Up | Down

  datatype WorkerPc =
    | Copying(chunk: Bytes)                    // bytes read and not written yet
    | Counting(outcome: Option<Failure>)       // the copy returned, its bytes are not counted yet
    | Sending(outcome: Option<Failure>)
    | Finished(outcome: Option<Failure>)

  /** `sent` is what the source's peer has sent so far, `received` what reached the destination. */
  datatype Worker = Worker(pc: WorkerPc, sent: Bytes, read: nat, received: Bytes)

  datatype MainPc =
    | Selecting
    | FirstTaken(first: Option<Failure>)       // before upstream.Close
    | UpstreamClosed(first: Option<Failure>)   // before local.Close
    | BothClosed(first: Option<Failure>)       // before the second receive
    | ContextTaken
    | ContextClosing
    | Returned(result: Option<Failure>, byContext: bool)

  /**
   * Which pump it is: with a context branch, and with a byte stream behind each worker. Without a stream the
   * workers are bare: when they end, send and unblock is told here, what they carry by the loops of the session.
   */
  datatype Kind = Kind(contextBranch: bool, stream: bool)

  const PIPE := Kind(false, true)
  const UDP_ASSOCIATE := Kind(true, false)

  datatype State = State(
    up: Worker, down: Worker, channel: seq<Option<Failure>>, main: MainPc,
    localClosed: bool, upstreamClosed: bool, contextDone: bool,
    // the shared byte counters, and how much of them other connections added
    upBytes: nat, downBytes: nat, othersUp: nat, othersDown: nat,
    // history: the outcomes in the order they were sent
    completed: seq<Option<Failure>>)

  function Fresh(): Worker { Worker(Copying([]), [], 0, []) }

  function Init(upBytes: nat, downBytes: nat): State {
    State(Fresh(), Fresh(), [], Selecting, false, false, false, upBytes, downBytes, upBytes, downBytes, [])
  }

  /** What happens at one worker. */
  datatype WorkerAct =
    | PeerSends(more: Bytes)
    | Read(k: nat)
    | Write
    | WriteFails(k: nat, e: Failure)           // k bytes of the chunk got through
    | CopyEnds(end: Option<Failure>)           // the read ended the copy
    | CountBytes
    | SendOutcome

  datatype MainAct = TakeFirst | CloseUpstream | CloseLocal | TakeSecond | TakeContext | CloseOnContext

  datatype Step =
    | WorkerStep(d: Dir, w: WorkerAct)
    | MainStep(m: MainAct)
    | OthersCount(d': Dir, n: nat)
    | ContextEnds
    | CancelCloses                             // context.AfterFunc closes both ends

  function Get(s: State, d: Dir): Worker { if d == Up then s.up else s.down }

  predicate SourceClosed(s: State, d: Dir) { if d == Up then s.localClosed else s.upstreamClosed }

  predicate SinkClosed(s: State, d: Dir) { if d == Up then s.upstreamClosed else s.localClosed }

  const CHANNEL_CAPACITY: nat := 2

  predicate CanMove(w: Worker, a: WorkerAct) {
    match a
    case PeerSends(_) => true
    case Read(k) => w.pc == Copying([]) && 0 < k && w.read + k <= |w.sent|
    case Write => w.pc.Copying? && w.pc.chunk != []
    case WriteFails(k, _) => w.pc.Copying? && w.pc.chunk != [] && k <= |w.pc.chunk|
    case CopyEnds(_) => w.pc == Copying([])
    case CountBytes => w.pc.Counting?
    case SendOutcome => w.pc.Sending?
  }

  function Move(w: Worker, a: WorkerAct): Worker
    requires CanMove(w, a)
  {
    match a
    case PeerSends(more) => w.(sent := w.sent + more)
    case Read(k) => w.(pc := Copying(w.sent[w.read..w.read + k]), read := w.read + k)
    case Write => w.(pc := Copying([]), received := w.received + w.pc.chunk)
    case WriteFails(k, e) => w.(pc := Counting(Normalize(Some(e))), received := w.received + w.pc.chunk[..k])
    case CopyEnds(end) => w.(pc := Counting(Normalize(end)))
    case CountBytes => w.(pc := Sending(w.pc.outcome))
    case SendOutcome => w.(pc := Finished(w.pc.outcome))
  }

  predicate WorkerEnabled(kind: Kind, s: State, d: Dir, a: WorkerAct) {
    && CanMove(Get(s, d), a)
    && (a.Read? ==> kind.stream && !SourceClosed(s, d))
    && (a.Write? ==> !SinkClosed(s, d))
    && (a.SendOutcome? ==> |s.channel| < CHANNEL_CAPACITY)
  }

  function ApplyWorker(s: State, d: Dir, a: WorkerAct): State
    requires CanMove(Get(s, d), a)
  {
    var w := Get(s, d);
    var n := if a.CountBytes? then |w.received| else 0;
    var out := if a.SendOutcome? then [w.pc.outcome] else [];
    s.(up := if d == Up then Move(w, a) else s.up,
       down := if d == Down then Move(w, a) else s.down,
       upBytes := if d == Up then s.upBytes + n else s.upBytes,
       downBytes := if d == Down then s.downBytes + n else s.downBytes,
       channel := s.channel + out,
       completed := s.completed + out)
  }

  predicate MainEnabled(kind: Kind, s: State, m: MainAct) {
    match m
    case TakeFirst => s.main == Selecting && s.channel != []
    case CloseUpstream => s.main.FirstTaken?
    case CloseLocal => s.main.UpstreamClosed?
    case TakeSecond => s.main.BothClosed? && s.channel != []
    case TakeContext => kind.contextBranch && s.main == Selecting && s.contextDone
    case CloseOnContext => s.main == ContextTaken || s.main == ContextClosing
  }

  /** The first outcome received decides unless it is nil; then the second one does. */
  function Pick(first: Option<Failure>, second: Option<Failure>): Option<Failure> {
    if first.Some? then first else second
  }

  function ApplyMain(kind: Kind, s: State, m: MainAct): State
    requires MainEnabled(kind, s, m)
  {
    match m
    case TakeFirst => s.(main := FirstTaken(s.channel[0]), channel := s.channel[1..])
    case CloseUpstream => s.(main := UpstreamClosed(s.main.first), upstreamClosed := true)
    case CloseLocal => s.(main := BothClosed(s.main.first), localClosed := true)
    case TakeSecond => s.(main := Returned(Pick(s.main.first, s.channel[0]), false), channel := s.channel[1..])
    case TakeContext => s.(main := ContextTaken)
    case CloseOnContext =>
      if s.main == ContextTaken then s.(main := ContextClosing, upstreamClosed := true)
      else s.(main := Returned(None, true), localClosed := true)
  }

  predicate Enabled(kind: Kind, s: State, step: Step) {
    match step
    case WorkerStep(d, a) => WorkerEnabled(kind, s, d, a)
    case MainStep(m) => MainEnabled(kind, s, m)
    case OthersCount(_, _) => true
    case ContextEnds => true
    case CancelCloses => s.contextDone
  }

  function Apply(kind: Kind, s: State, step: Step): State
    requires Enabled(kind, s, step)
  {
    match step
    case WorkerStep(d, a) => ApplyWorker(s, d, a)
    case MainStep(m) => ApplyMain(kind, s, m)
    case OthersCount(Up, n) => s.(upBytes := s.upBytes + n, othersUp := s.othersUp + n)
    case OthersCount(Down, n) => s.(downBytes := s.downBytes + n, othersDown := s.othersDown + n)
    case ContextEnds => s.(contextDone := true)
    case CancelCloses => s.(localClosed := true, upstreamClosed := true)
  }

  // ----- The invariant -----

  /** What reached the sink is a prefix of what the source's peer sent; nothing read is lost before a failure. */
  ghost predicate Transfer(w: Worker) {
    && w.read <= |w.sent|
    && w.received <= w.sent[..w.read]
    && (w.pc.Copying? ==> w.received + w.pc.chunk == w.sent[..w.read])
  }

  predicate Counted(w: Worker) { w.pc.Sending? || w.pc.Finished? }

  ghost predicate CountersExact(s: State) {
    && s.upBytes == s.othersUp + (if Counted(s.up) then |s.up.received| else 0)
    && s.downBytes == s.othersDown + (if Counted(s.down) then |s.down.received| else 0)
  }

  /** The outcomes sent so far belong to the finished workers, in one order or the other. */
  ghost predicate CompletedBy(s: State) {
    match (s.up.pc, s.down.pc)
    case (Finished(a), Finished(b)) => s.completed == [a, b] || s.completed == [b, a]
    case (Finished(a), _) => s.completed == [a]
    case (_, Finished(b)) => s.completed == [b]
    case (_, _) => s.completed == []
  }

  /** What the receiver has taken so far. */
  function Taken(s: State): nat {
    match s.main
    case FirstTaken(_) => 1
    case UpstreamClosed(_) => 1
    case BothClosed(_) => 1
    case Returned(_, false) => 2
    case _ => 0
  }

  /** The channel holds the outcomes that have been sent and not been taken. */
  predicate Queued(s: State) {
    Taken(s) <= |s.completed| && s.channel == s.completed[Taken(s)..]
  }

  /** What the receiver took is what was sent first, and what it returns is chosen from the first two. */
  predicate Remembered(s: State)
    requires Taken(s) <= |s.completed|
  {
    && (s.main.FirstTaken? || s.main.UpstreamClosed? || s.main.BothClosed? ==> s.main.first == s.completed[0])
    && (s.main.Returned? ==> s.main.result == if s.main.byContext then None else Pick(s.completed[0], s.completed[1]))
  }

  predicate ClosedInTurn(s: State) {
    && (s.main.UpstreamClosed? || s.main.BothClosed? || s.main == ContextClosing || s.main.Returned? ==> s.upstreamClosed)
    && (s.main.BothClosed? || s.main.Returned? ==> s.localClosed)
  }

  ghost predicate ChannelExact(s: State) {
    Queued(s) && Remembered(s) && ClosedInTurn(s)
  }

  ghost predicate Inv(s: State) {
    Transfer(s.up) && Transfer(s.down) && CountersExact(s) && CompletedBy(s) && ChannelExact(s)
  }

  lemma MoveKeepsTransfer(w: Worker, a: WorkerAct)
    requires Transfer(w) && CanMove(w, a)
    ensures Transfer(Move(w, a))
  {
    match a
    case PeerSends(more) => assert (w.sent + more)[..w.read] == w.sent[..w.read];
    case Read(k) => assert w.sent[..w.read + k] == w.sent[..w.read] + w.sent[w.read..w.read + k];
    case WriteFails(k, e) => assert w.received + w.pc.chunk == (w.received + w.pc.chunk[..k]) + w.pc.chunk[k..];
    case _ =>
  }

  lemma WorkerKeepsCounters(s: State, d: Dir, a: WorkerAct)
    requires CountersExact(s) && CanMove(Get(s, d), a)
    ensures CountersExact(ApplyWorker(s, d, a))
  {
  }

  lemma WorkerKeepsCompleted(s: State, d: Dir, a: WorkerAct)
    requires CompletedBy(s) && CanMove(Get(s, d), a)
    ensures CompletedBy(ApplyWorker(s, d, a))
  {
    var w, t := Get(s, d), ApplyWorker(s, d, a);
    if a.SendOutcome? {
      assert t.completed == s.completed + [w.pc.outcome];
    } else {
      assert t.completed == s.completed;
    }
  }

  lemma WorkerKeepsChannel(s: State, d: Dir, a: WorkerAct)
    requires ChannelExact(s) && CanMove(Get(s, d), a)
    ensures ChannelExact(ApplyWorker(s, d, a))
  {
    hide Move, ChannelExact;
    ChannelGrows(s, ApplyWorker(s, d, a), if a.SendOutcome? then [Get(s, d).pc.outcome] else []);
  }

  lemma ChannelGrows(s: State, t: State, out: seq<Option<Failure>>)
    requires ChannelExact(s) && t.main == s.main && t.localClosed == s.localClosed && t.upstreamClosed == s.upstreamClosed
    requires t.channel == s.channel + out && t.completed == s.completed + out
    ensures ChannelExact(t)
  {
    hide Pick;
    QueueGrows(s.channel, s.completed, out, Taken(s));
  }

  lemma QueueGrows<T>(channel: seq<T>, completed: seq<T>, out: seq<T>, k: nat)
    requires k <= |completed| && channel == completed[k..]
    ensures channel + out == (completed + out)[k..] && (forall i :: 0 <= i < |completed| ==> (completed + out)[i] == completed[i])
  {
  }

  lemma WorkerKeeps(kind: Kind, s: State, d: Dir, a: WorkerAct)
    requires Inv(s) && WorkerEnabled(kind, s, d, a)
    ensures Inv(ApplyWorker(s, d, a))
  {
    hide Transfer, CountersExact, CompletedBy, ChannelExact, Move;
    MoveKeepsTransfer(Get(s, d), a);
    WorkerKeepsCounters(s, d, a);
    WorkerKeepsCompleted(s, d, a);
    WorkerKeepsChannel(s, d, a);
  }

  lemma MainKeepsChannel(kind: Kind, s: State, m: MainAct)
    requires ChannelExact(s) && |s.completed| <= 2 && MainEnabled(kind, s, m)
    ensures ChannelExact(ApplyMain(kind, s, m))
  {
    hide Pick;
    match m
    case TakeFirst => QueueShrinks(s.channel, s.completed, 0);
    case TakeSecond => QueueShrinks(s.channel, s.completed, 1);
    case _ =>
  }

  lemma QueueShrinks<T>(channel: seq<T>, completed: seq<T>, k: nat)
    requires k <= |completed| && channel == completed[k..] && channel != []
    ensures channel[1..] == completed[k + 1..] && channel[0] == completed[k]
  {
  }

  lemma MainKeeps(kind: Kind, s: State, m: MainAct)
    requires Inv(s) && MainEnabled(kind, s, m)
    ensures Inv(ApplyMain(kind, s, m))
  {
    hide Transfer, ChannelExact;
    MainKeepsChannel(kind, s, m);
  }

  lemma StepKeeps(kind: Kind, s: State, step: Step)
    requires Inv(s) && Enabled(kind, s, step)
    ensures Inv(Apply(kind, s, step))
  {
    hide Inv, ApplyWorker, ApplyMain;
    match step
    case WorkerStep(d, a) => WorkerKeeps(kind, s, d, a);
    case MainStep(m) => MainKeeps(kind, s, m);
    case OthersCount(_, _) => OthersKeep(kind, s, step);
    case ContextEnds => OthersKeep(kind, s, step);
    case CancelCloses => OthersKeep(kind, s, step);
  }

  lemma OthersKeep(kind: Kind, s: State, step: Step)
    requires Inv(s) && Enabled(kind, s, step) && !step.WorkerStep? && !step.MainStep?
    ensures Inv(Apply(kind, s, step))
  {
    hide Transfer, ChannelExact, CompletedBy;
    var t := Apply(kind, s, step);
    assert t.up == s.up && t.down == s.down;
    OthersKeepOutcomes(s, t);
  }

  lemma OthersKeepOutcomes(s: State, t: State)
    requires CompletedBy(s) && ChannelExact(s)
    requires t.up == s.up && t.down == s.down && t.completed == s.completed && t.channel == s.channel && t.main == s.main
    requires (s.localClosed ==> t.localClosed) && (s.upstreamClosed ==> t.upstreamClosed)
    ensures CompletedBy(t) && ChannelExact(t)
  {
  }

  predicate Runs(kind: Kind, s: State, steps: seq<Step>)
    decreases |steps|
  {
    steps == [] || (Enabled(kind, s, steps[0]) && Runs(kind, Apply(kind, s, steps[0]), steps[1..]))
  }

  function Exec(kind: Kind, s: State, steps: seq<Step>): State
    requires Runs(kind, s, steps)
    decreases |steps|
  {
    if steps == [] then s else Exec(kind, Apply(kind, s, steps[0]), steps[1..])
  }

  lemma {:induction false} RunKeeps(kind: Kind, s: State, steps: seq<Step>)
    requires Inv(s) && Runs(kind, s, steps)
    ensures Inv(Exec(kind, s, steps))
    decreases |steps|
  {
    hide Inv, Apply, Enabled;
    if steps != [] {
      StepKeeps(kind, s, steps[0]);
      RunKeeps(kind, Apply(kind, s, steps[0]), steps[1..]);
    }
  }

  // ----- What every run guarantees -----

  /** Each side has received a prefix of what the other sent, and nobody ever blocks on the channel. */
  lemma PrefixesAndRoom(kind: Kind, upBytes: nat, downBytes: nat, steps: seq<Step>)
    requires Runs(kind, Init(upBytes, downBytes), steps)
    ensures
      var s := Exec(kind, Init(upBytes, downBytes), steps);
      && s.up.received <= s.up.sent && s.down.received <= s.down.sent
      && (forall d :: Get(s, d).pc.Sending? ==> |s.channel| < CHANNEL_CAPACITY)
      && |s.channel| <= CHANNEL_CAPACITY
  {
    RunKeeps(kind, Init(upBytes, downBytes), steps);
  }

  /**
   * When a pump returns having received both outcomes: its byte counters have grown by exactly the bytes
   * that arrived, and its result is nil exactly when both outcomes are, otherwise the first one sent
   * that is an error.
   */
  lemma ReturnOfPump(kind: Kind, upBytes: nat, downBytes: nat, steps: seq<Step>)
    requires Runs(kind, Init(upBytes, downBytes), steps)
    requires Exec(kind, Init(upBytes, downBytes), steps).main.Returned?
    ensures
      var s := Exec(kind, Init(upBytes, downBytes), steps);
      && s.localClosed && s.upstreamClosed
      && (s.main.byContext ==> kind.contextBranch && s.main.result == None)
      && (!s.main.byContext ==>
            && |s.completed| == 2 && s.up.pc.Finished? && s.down.pc.Finished?
            && s.upBytes == s.othersUp + |s.up.received| && s.downBytes == s.othersDown + |s.down.received|
            && (s.main.result == None <==> s.up.pc.outcome == None && s.down.pc.outcome == None)
            && s.main.result == (if s.completed[0].Some? then s.completed[0] else s.completed[1])
            && (s.completed == [s.up.pc.outcome, s.down.pc.outcome] || s.completed == [s.down.pc.outcome, s.up.pc.outcome]))
  {
    RunKeeps(kind, Init(upBytes, downBytes), steps);
    OnlyContextBranchReturnsByContext(kind, Init(upBytes, downBytes), steps);
  }

  lemma {:induction false} OnlyContextBranchReturnsByContext(kind: Kind, s: State, steps: seq<Step>)
    requires Runs(kind, s, steps)
    ensures
      var t := Exec(kind, s, steps);
      var out := (m: MainPc) => m == ContextTaken || m == ContextClosing || (m.Returned? && m.byContext);
      out(t.main) ==> kind.contextBranch || out(s.main)
    decreases |steps|
  {
    if steps != [] {
      OnlyContextBranchReturnsByContext(kind, Apply(kind, s, steps[0]), steps[1..]);
    }
  }

  // ----- The two pumps of the code -----

  /** pipe: it never returns but with both outcomes, and then the byte counters and the error are as in ReturnOfPump. */
  lemma ReturnOfPipe(upBytes: nat, downBytes: nat, steps: seq<Step>)
    requires Runs(PIPE, Init(upBytes, downBytes), steps)
    ensures
      var s := Exec(PIPE, Init(upBytes, downBytes), steps);
      s.main.Returned? ==>
        && s.localClosed && s.upstreamClosed && s.up.pc.Finished? && s.down.pc.Finished?
        && s.up.received <= s.up.sent && s.down.received <= s.down.sent
        && s.upBytes == s.othersUp + |s.up.received| && s.downBytes == s.othersDown + |s.down.received|
        && (s.main.result == None <==> s.up.pc.outcome == None && s.down.pc.outcome == None)
        && |s.completed| == 2 && s.main.result == (if s.completed[0].Some? then s.completed[0] else s.completed[1])
  {
    PrefixesAndRoom(PIPE, upBytes, downBytes, steps);
    if Exec(PIPE, Init(upBytes, downBytes), steps).main.Returned? { ReturnOfPump(PIPE, upBytes, downBytes, steps); }
  }

  /** The datagram workers move no stream: no byte is read, received or counted by this machine. */
  ghost predicate NoStream(s: State) {
    && s.up.read == s.down.read == 0 && s.up.received == s.down.received == []
    && (s.up.pc.Copying? ==> s.up.pc.chunk == []) && (s.down.pc.Copying? ==> s.down.pc.chunk == [])
  }

  lemma {:induction false} UdpHasNoStream(s: State, steps: seq<Step>)
    requires Runs(UDP_ASSOCIATE, s, steps) && NoStream(s)
    ensures NoStream(Exec(UDP_ASSOCIATE, s, steps))
    decreases |steps|
  {
    if steps != [] {
      NoStreamKept(s, steps[0]);
      UdpHasNoStream(Apply(UDP_ASSOCIATE, s, steps[0]), steps[1..]);
    }
  }

  lemma NoStreamKept(s: State, step: Step)
    requires Enabled(UDP_ASSOCIATE, s, step) && NoStream(s)
    ensures NoStream(Apply(UDP_ASSOCIATE, s, step))
  {
    match step
    case WorkerStep(d, a) => assert !a.Read?;
    case OthersCount(d, _) => assert d == Up || d == Down;
    case _ =>
  }

  /**
   * pipeUDPAssociate: it returns with both outcomes and the first error, or through its context with none. Its
   * datagrams are counted turn by turn by the loops of a UDP session, so this machine counts no byte of it.
   */
  lemma ReturnOfUdpAssociate(upBytes: nat, downBytes: nat, steps: seq<Step>)
    requires Runs(UDP_ASSOCIATE, Init(upBytes, downBytes), steps)
    ensures
      var s := Exec(UDP_ASSOCIATE, Init(upBytes, downBytes), steps);
      && s.upBytes == s.othersUp && s.downBytes == s.othersDown
      && (s.main.Returned? ==>
            && s.localClosed && s.upstreamClosed
            && if s.main.byContext then s.main.result == None
               else |s.completed| == 2 && s.up.pc.Finished? && s.down.pc.Finished?
                    && s.main.result == (if s.completed[0].Some? then s.completed[0] else s.completed[1]))
  {
    RunKeeps(UDP_ASSOCIATE, Init(upBytes, downBytes), steps);
    UdpHasNoStream(Init(upBytes, downBytes), steps);
    if Exec(UDP_ASSOCIATE, Init(upBytes, downBytes), steps).main.Returned? { ReturnOfPump(UDP_ASSOCIATE, upBytes, downBytes, steps); }
  }

  // ----- Which ends are errors -----

  /** The end of a copy that a step reports, as the copy itself returned it. */
  function EndIn(step: Step, d: Dir): Option<Option<Failure>> {
    match step
    case WorkerStep(e, CopyEnds(end)) => if e == d then Some(end) else None
    case WorkerStep(e, WriteFails(_, f)) => if e == d then Some(Some(f)) else None
    case _ => None
  }

  /** The first end that a run reports for a worker. */
  function FirstEnd(steps: seq<Step>, d: Dir): Option<Option<Failure>> {
    if steps == [] then None
    else if EndIn(steps[0], d).Some? then EndIn(steps[0], d)
    else FirstEnd(steps[1..], d)
  }

  /** The end of a stream and a closed connection are no errors; anything else is. */
  predicate IsErrorStep(step: Step) {
    match step
    case WorkerStep(_, CopyEnds(Some(Other(_)))) => true
    case WorkerStep(_, WriteFails(_, Other(_))) => true
    case _ => false
  }

  /** The code a worker reports, if its copy ended with an error. */
  function CodeOf(steps: seq<Step>, d: Dir): Option<int> {
    match FirstEnd(steps, d)
    case Some(Some(Other(code))) => Some(code)
    case _ => None
  }

  function FailureOf(code: Option<int>): Option<Failure> {
    if code.Some? then Some(Other(code.value)) else None
  }

  /** Who sends an outcome, in the order of the sends. */
  function Senders(steps: seq<Step>): seq<Dir> {
    if steps == [] then []
    else (if steps[0].WorkerStep? && steps[0].w.SendOutcome? then [steps[0].d] else []) + Senders(steps[1..])
  }

  function OutcomesOf(t: State, ds: seq<Dir>): (r: seq<Option<Failure>>)
    requires !t.up.pc.Copying? && !t.down.pc.Copying?
    ensures |r| == |ds|
  {
    seq(|ds|, i requires 0 <= i < |ds| => Get(t, ds[i]).pc.outcome)
  }

  /** One step of a worker's life: it reports an end once, and keeps the outcome of it. */
  lemma OneEnd(kind: Kind, s: State, step: Step, d: Dir)
    requires Enabled(kind, s, step)
    ensures
      var t := Apply(kind, s, step);
      if EndIn(step, d).Some? then
        && Get(s, d).pc.Copying? && Get(t, d).pc.Counting?
        && Get(t, d).pc.outcome == (match EndIn(step, d).value case Some(Other(code)) => Some(Other(code)) case _ => None)
      else
        && (Get(t, d).pc.Copying? <==> Get(s, d).pc.Copying?)
        && (!Get(s, d).pc.Copying? ==> Get(t, d).pc.outcome == Get(s, d).pc.outcome)
  {
    match step
    case WorkerStep(e, a) =>
      hide ApplyMain;
      assert d == e || Get(Apply(kind, s, step), d) == Get(s, d);
    case _ => OthersKeepWorkers(kind, s, step);
  }

  lemma OthersKeepWorkers(kind: Kind, s: State, step: Step)
    requires Enabled(kind, s, step) && !step.WorkerStep?
    ensures Apply(kind, s, step).up == s.up && Apply(kind, s, step).down == s.down
  {
    match step
    case OthersCount(e, _) => assert e == Up || e == Down;
    case _ =>
  }

  /** The outcome of a worker is the error its copy ended with, if it was one. */
  lemma {:induction false} OutcomeIsReported(kind: Kind, s: State, steps: seq<Step>, d: Dir)
    requires Runs(kind, s, steps)
    ensures
      var t := Exec(kind, s, steps);
      if Get(s, d).pc.Copying? then
        && (Get(t, d).pc.Copying? <==> FirstEnd(steps, d).None?)
        && (!Get(t, d).pc.Copying? ==> Get(t, d).pc.outcome == FailureOf(CodeOf(steps, d)))
      else
        !Get(t, d).pc.Copying? && Get(t, d).pc.outcome == Get(s, d).pc.outcome && FirstEnd(steps, d).None?
    decreases |steps|
  {
    hide Apply, Enabled, Get, EndIn;
    if steps != [] {
      OneEnd(kind, s, steps[0], d);
      OutcomeIsReported(kind, Apply(kind, s, steps[0]), steps[1..], d);
    }
  }

  /** No other step than the one that ended a copy reports an error. */
  lemma {:induction false} ErrorStepIff(kind: Kind, s: State, steps: seq<Step>)
    requires Runs(kind, s, steps)
    ensures
      (exists step :: step in steps && IsErrorStep(step)) <==>
      (Get(s, Up).pc.Copying? && CodeOf(steps, Up).Some?) || (Get(s, Down).pc.Copying? && CodeOf(steps, Down).Some?)
    decreases |steps|
  {
    hide Apply, Enabled, Get;
    if steps != [] {
      var first, rest := steps[0], steps[1..];
      OneEnd(kind, s, first, Up);
      OneEnd(kind, s, first, Down);
      OutcomeIsReported(kind, s, steps, Up);
      OutcomeIsReported(kind, s, steps, Down);
      ErrorStepIff(kind, Apply(kind, s, first), rest);
      assert IsErrorStep(first) <==> (exists d :: EndIn(first, d).Some? && EndIn(first, d).value.Some? && EndIn(first, d).value.value.Other?);
      assert forall step :: step in steps <==> step == first || step in rest;
    }
  }

  /** The outcomes sent are those of the senders, in order. */
  lemma {:induction false} CompletedIsSent(kind: Kind, s: State, steps: seq<Step>)
    requires Runs(kind, s, steps)
    requires var t := Exec(kind, s, steps); !t.up.pc.Copying? && !t.down.pc.Copying?
    ensures var t := Exec(kind, s, steps); t.completed == s.completed + OutcomesOf(t, Senders(steps))
    decreases |steps|
  {
    hide Apply, Enabled;
    if steps != [] {
      var m, t := Apply(kind, s, steps[0]), Exec(kind, s, steps);
      SendsItsOutcome(kind, s, steps[0]);
      CompletedIsSent(kind, m, steps[1..]);
      OutcomeIsReported(kind, m, steps[1..], Up);
      OutcomeIsReported(kind, m, steps[1..], Down);
      assert steps[0].WorkerStep? && steps[0].w.SendOutcome? ==>
          OutcomesOf(t, Senders(steps)) == [Get(t, steps[0].d).pc.outcome] + OutcomesOf(t, Senders(steps[1..]));
    }
  }

  lemma SendsItsOutcome(kind: Kind, s: State, step: Step)
    requires Enabled(kind, s, step)
    ensures
      var t := Apply(kind, s, step);
      if step.WorkerStep? && step.w.SendOutcome? then
        !Get(t, step.d).pc.Copying? && t.completed == s.completed + [Get(t, step.d).pc.outcome]
      else t.completed == s.completed
  {
    match step
    case OthersCount(e, _) => assert e == Up || e == Down;
    case _ =>
  }

  /**
   * What a pump that returned with both outcomes returns, told from the ends of the copies alone: nil if and
   * only if no copy ended with anything but an end of stream or a closed connection, otherwise the error of
   * the worker that sent one first.
   */
  ghost predicate ReturnsFirstError(steps: seq<Step>, result: Option<Failure>) {
    var order := Senders(steps);
    && (result == None <==> forall step <- steps :: !IsErrorStep(step))
    && |order| == 2 && order[0] != order[1]
    && result == FailureOf(if CodeOf(steps, order[0]).Some? then CodeOf(steps, order[0]) else CodeOf(steps, order[1]))
  }

  lemma ResultOfPump(kind: Kind, upBytes: nat, downBytes: nat, steps: seq<Step>)
    requires Runs(kind, Init(upBytes, downBytes), steps)
    requires var s := Exec(kind, Init(upBytes, downBytes), steps); s.main.Returned? && !s.main.byContext
    ensures ReturnsFirstError(steps, Exec(kind, Init(upBytes, downBytes), steps).main.result)
  {
    hide Runs, Exec, FirstEnd, Senders;
    var init := Init(upBytes, downBytes);
    var t, order := Exec(kind, init, steps), Senders(steps);
    ReturnOfPump(kind, upBytes, downBytes, steps);
    OutcomeIsReported(kind, init, steps, Up);
    OutcomeIsReported(kind, init, steps, Down);
    CompletedIsSent(kind, init, steps);
    ErrorStepIff(kind, init, steps);
    EachSendsOnce(kind, init, steps);
    assert t.completed == OutcomesOf(t, order);
    assert order[0] == Up || order[0] == Down;
    assert order[1] == Up || order[1] == Down;
  }

  /** A worker sends once and is finished. */
  lemma {:induction false} EachSendsOnce(kind: Kind, s: State, steps: seq<Step>)
    requires Runs(kind, s, steps)
    ensures forall d <- Senders(steps) :: !Get(s, d).pc.Finished?
    ensures forall i, j :: 0 <= i < j < |Senders(steps)| ==> Senders(steps)[i] != Senders(steps)[j]
    decreases |steps|
  {
    hide Apply, Enabled, Get;
    if steps != [] {
      FinishedStays(kind, s, steps[0]);
      EachSendsOnce(kind, Apply(kind, s, steps[0]), steps[1..]);
    }
  }

  lemma FinishedStays(kind: Kind, s: State, step: Step)
    requires Enabled(kind, s, step)
    ensures forall d :: Get(s, d).pc.Finished? ==> Get(Apply(kind, s, step), d).pc.Finished?
    ensures step.WorkerStep? && step.w.SendOutcome? ==> !Get(s, step.d).pc.Finished? && Get(Apply(kind, s, step), step.d).pc.Finished?
  {
    match step
    case OthersCount(e, _) => assert e == Up || e == Down;
    case _ =>
  }

  /** pipe. */
  lemma ResultOfPipe(upBytes: nat, downBytes: nat, steps: seq<Step>)
    requires Runs(PIPE, Init(upBytes, downBytes), steps) && Exec(PIPE, Init(upBytes, downBytes), steps).main.Returned?
    ensures ReturnsFirstError(steps, Exec(PIPE, Init(upBytes, downBytes), steps).main.result)
  {
    ReturnOfPump(PIPE, upBytes, downBytes, steps);
    ResultOfPump(PIPE, upBytes, downBytes, steps);
  }

  /** pipeUDPAssociate, when it does not leave through its context. */
  lemma ResultOfUdpAssociate(upBytes: nat, downBytes: nat, steps: seq<Step>)
    requires Runs(UDP_ASSOCIATE, Init(upBytes, downBytes), steps)
    requires var s := Exec(UDP_ASSOCIATE, Init(upBytes, downBytes), steps); s.main.Returned? && !s.main.byContext
    ensures ReturnsFirstError(steps, Exec(UDP_ASSOCIATE, Init(upBytes, downBytes), steps).main.result)
  {
    ResultOfPump(UDP_ASSOCIATE, upBytes, downBytes, steps);
  }

  // ----- What a pump can do -----

  /** While the ends are open and a copy runs, everything its peer has sent can reach the other side. */
  lemma {:induction false} CanCarryAll(s: State, d: Dir) returns (steps: seq<Step>)
    requires Inv(s) && Get(s, d).pc.Copying? && !s.localClosed && !s.upstreamClosed
    ensures Runs(PIPE, s, steps) && forall step <- steps :: step.WorkerStep? && step.d == d && (step.w.Read? || step.w.Write?)
    ensures var w := Get(Exec(PIPE, s, steps), d); w.received == w.sent == Get(s, d).sent && w.pc == Copying([])
    decreases 2 * (|Get(s, d).sent| - |Get(s, d).received|) - (if Get(s, d).pc == Copying([]) then 0 else 1)
  {
    hide CountersExact, CompletedBy, ChannelExact;
    var w := Get(s, d);
    steps := [];
    if w.pc != Copying([]) || w.read < |w.sent| {
      var step := WorkerStep(d, if w.pc == Copying([]) then Read(1) else Write);
      var t := Apply(PIPE, s, step);
      StepKeeps(PIPE, s, step);
      var rest := CanCarryAll(t, d);
      steps := [step] + rest;
      assert steps[1..] == rest;
    } else {
      assert w.received + [] == w.sent[..w.read];
    }
  }

  /** Closing an end stops the reads from it and the writes to it, and no others. */
  lemma WhatClosingStops(s: State, k: nat)
    ensures s.up.pc == Copying([]) && 0 < k <= |s.up.sent| - s.up.read ==> (Enabled(PIPE, s, WorkerStep(Up, Read(k))) <==> !s.localClosed)
    ensures s.down.pc == Copying([]) && 0 < k <= |s.down.sent| - s.down.read ==> (Enabled(PIPE, s, WorkerStep(Down, Read(k))) <==> !s.upstreamClosed)
    ensures s.up.pc.Copying? && s.up.pc.chunk != [] ==> (Enabled(PIPE, s, WorkerStep(Up, Write)) <==> !s.upstreamClosed)
    ensures s.down.pc.Copying? && s.down.pc.chunk != [] ==> (Enabled(PIPE, s, WorkerStep(Down, Write)) <==> !s.localClosed)
  {
  }

  /** A copy between chunks can end in any way, and a write can fail in any way after any part of its chunk. */
  lemma AnyEndCanHappen(kind: Kind, s: State, d: Dir, end: Option<Failure>, k: nat, e: Failure)
    ensures Get(s, d).pc == Copying([]) ==> Enabled(kind, s, WorkerStep(d, CopyEnds(end)))
    ensures Get(s, d).pc.Copying? && 0 < |Get(s, d).pc.chunk| && k <= |Get(s, d).pc.chunk| ==>
              && Enabled(kind, s, WorkerStep(d, WriteFails(k, e)))
              && Get(Apply(kind, s, WorkerStep(d, WriteFails(k, e))), d).received == Get(s, d).received + Get(s, d).pc.chunk[..k]
  {
  }

  /** A cancelled session that still waits for an outcome can leave through its context, with no error. */
  lemma CanLeaveByContext(s: State) returns (steps: seq<Step>)
    requires s.main == Selecting && s.contextDone
    ensures Runs(UDP_ASSOCIATE, s, steps) && Exec(UDP_ASSOCIATE, s, steps).main == Returned(None, true)
    ensures forall step <- steps :: step.MainStep?
  {
    steps := [MainStep(TakeContext), MainStep(CloseOnContext), MainStep(CloseOnContext)];
    assert steps[1..] == [MainStep(CloseOnContext), MainStep(CloseOnContext)] && steps[1..][1..] == [MainStep(CloseOnContext)];
    var one := Apply(UDP_ASSOCIATE, s, steps[0]);
    var two := Apply(UDP_ASSOCIATE, one, steps[1]);
    assert steps[1..][1..][1..] == [];
    assert Runs(UDP_ASSOCIATE, two, [MainStep(CloseOnContext)]);
    assert Runs(UDP_ASSOCIATE, one, steps[1..]);
  }

  lemma {:induction false} ContextDoneIff(kind: Kind, s: State, steps: seq<Step>)
    requires Runs(kind, s, steps)
    ensures Exec(kind, s, steps).contextDone <==> s.contextDone || ContextEnds in steps
    ensures
      var left := (m: MainPc) => m == ContextTaken || m == ContextClosing || (m.Returned? && m.byContext);
      left(Exec(kind, s, steps).main) ==> left(s.main) || Exec(kind, s, steps).contextDone
    decreases |steps|
  {
    if steps != [] { ContextDoneIff(kind, Apply(kind, s, steps[0]), steps[1..]); }
  }

  /** A UDP session leaves through its context only after that has ended. */
  lemma LeavesOnlyCancelled(upBytes: nat, downBytes: nat, steps: seq<Step>)
    requires Runs(UDP_ASSOCIATE, Init(upBytes, downBytes), steps)
    ensures
      var main := Exec(UDP_ASSOCIATE, Init(upBytes, downBytes), steps).main;
      main.Returned? && main.byContext ==> ContextEnds in steps
  {
    ContextDoneIff(UDP_ASSOCIATE, Init(upBytes, downBytes), steps);
  }

  // ----- Closing unblocks -----

  function WorkerRank(w: Worker): nat {
    match w.pc
    case Copying(_) => 3
    case Counting(_) => 2
    case Sending(_) => 1
    case Finished(_) => 0
  }

  function MainRank(m: MainPc): nat {
    match m
    case Selecting => 4
    case FirstTaken(_) => 3
    case UpstreamClosed(_) => 2
    case BothClosed(_) => 1
    case ContextTaken => 2
    case ContextClosing => 1
    case Returned(_, _) => 0
  }

  function Measure(s: State): nat {
    MainRank(s.main) + WorkerRank(s.up) + WorkerRank(s.down) + if s.localClosed && s.upstreamClosed then 0 else 1
  }

  /** Something has happened that ends the pump: a worker's copy returned, the receiver moved on, or the context ended. */
  predicate Ending(s: State) {
    !s.up.pc.Copying? || !s.down.pc.Copying? || s.main != Selecting || s.contextDone
  }

  /** What a worker does next; still copying, with both ends closed, its next read or write fails. */
  function WorkerNext(w: Worker): WorkerAct
    requires !w.pc.Finished?
  {
    match w.pc
    case Copying(chunk) => if chunk == [] then CopyEnds(Some(NetClosed)) else WriteFails(0, NetClosed)
    case Counting(_) => CountBytes
    case Sending(_) => SendOutcome
  }

  /** A step the pump takes by itself: of the receiver, of a worker whose copy returned or is unblocked by closing, or of context.AfterFunc. */
  predicate OwnStep(s: State, step: Step) {
    match step
    case MainStep(m) => m != TakeContext
    case WorkerStep(_, CopyEnds(end)) => end == Some(NetClosed) && s.localClosed && s.upstreamClosed
    case WorkerStep(_, WriteFails(_, e)) => e == NetClosed && s.localClosed && s.upstreamClosed
    case WorkerStep(_, a) => a == CountBytes || a == SendOutcome
    case CancelCloses => s.contextDone
    case _ => false
  }

  lemma WorkerDescends(kind: Kind, s: State, d: Dir)
    requires Inv(s) && !Get(s, d).pc.Finished?
    requires Get(s, d).pc.Copying? ==> s.localClosed && s.upstreamClosed
    ensures
      var step := WorkerStep(d, WorkerNext(Get(s, d)));
      && Enabled(kind, s, step) && OwnStep(s, step)
      && Measure(Apply(kind, s, step)) < Measure(s) && Apply(kind, s, step).main == s.main
      && WorkerRank(Get(Apply(kind, s, step), d)) < WorkerRank(Get(s, d)) && !Get(Apply(kind, s, step), d).pc.Copying?
  {
    hide Transfer, CountersExact;
  }

  lemma NextStep(kind: Kind, s: State) returns (step: Step)
    requires Inv(s) && Ending(s) && !s.main.Returned?
    ensures Enabled(kind, s, step) && Ending(Apply(kind, s, step)) && Measure(Apply(kind, s, step)) < Measure(s)
    ensures OwnStep(s, step)
  {
    hide Transfer, CountersExact;
    match s.main {
      case FirstTaken(_) => step := MainStep(CloseUpstream);
      case UpstreamClosed(_) => step := MainStep(CloseLocal);
      case ContextTaken => step := MainStep(CloseOnContext);
      case ContextClosing => step := MainStep(CloseOnContext);
      case Selecting =>
        var d := if s.up.pc.Copying? && !s.down.pc.Copying? then Down else Up;
        if s.channel != [] {
          step := MainStep(TakeFirst);
        } else if Get(s, d).pc.Copying? && !(s.localClosed && s.upstreamClosed) {
          step := CancelCloses;
        } else {
          WorkerDescends(kind, s, d);
          step := WorkerStep(d, WorkerNext(Get(s, d)));
        }
      case BothClosed(_) =>
        var d := if s.up.pc.Finished? then Down else Up;
        if s.channel != [] {
          step := MainStep(TakeSecond);
        } else {
          WorkerDescends(kind, s, d);
          step := WorkerStep(d, WorkerNext(Get(s, d)));
        }
    }
  }

  predicate OwnSteps(kind: Kind, s: State, steps: seq<Step>)
    requires Runs(kind, s, steps)
    decreases |steps|
  {
    steps == [] || (OwnStep(s, steps[0]) && OwnSteps(kind, Apply(kind, s, steps[0]), steps[1..]))
  }

  /**
   * Close-to-unblock works, both times the code uses it: as soon as one copy has returned, and also when the
   * context ends while both copies are blocked, the pump can return by its own steps, a worker still copying
   * only needing that reads and writes on closed ends fail.
   */
  lemma {:induction false} CanReturn(kind: Kind, s: State) returns (steps: seq<Step>)
    requires Inv(s) && Ending(s)
    ensures Runs(kind, s, steps) && OwnSteps(kind, s, steps) && Exec(kind, s, steps).main.Returned?
    ensures |steps| <= Measure(s)
    decreases Measure(s)
  {
    hide Inv, Apply, Enabled, Measure, OwnStep;
    if s.main.Returned? {
      steps := [];
    } else {
      var step := NextStep(kind, s);
      StepKeeps(kind, s, step);
      var rest := CanReturn(kind, Apply(kind, s, step));
      steps := [step] + rest;
      assert steps[1..] == rest;
    }
  }

  /** After a return by context nobody receives any more, and still every worker can finish. */
  lemma WorkersFinishAfterContext(kind: Kind, s: State, d: Dir) returns (steps: seq<Step>)
    requires Inv(s) && s.main.Returned?
    ensures Runs(kind, s, steps) && OwnSteps(kind, s, steps) && Get(Exec(kind, s, steps), d).pc.Finished?
    ensures |steps| <= WorkerRank(Get(s, d))
    decreases WorkerRank(Get(s, d))
  {
    hide Transfer, CountersExact;
    var w := Get(s, d);
    if w.pc.Finished? {
      steps := [];
    } else {
      var step := WorkerStep(d, WorkerNext(w));
      WorkerDescends(kind, s, d);
      StepKeeps(kind, s, step);
      var rest := WorkersFinishAfterContext(kind, Apply(kind, s, step), d);
      steps := [step] + rest;
      assert steps[1..] == rest;
    }
  }
}
