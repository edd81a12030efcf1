/**
 * The access-log pipeline as a protocol: connection goroutines record at any moment, the one reporter
 * goroutine drains, posts with the lock free and, on failure, restores. Every accepted record carries
 * the position at which it was accepted, so that loss, duplication and reordering can be told apart.
 */
module AccessLogProtocol {
  import opened AccessLog
  import opened LogQueue

  datatype Entry = Entry(stamp: nat, item: Item)

  /** maxAccessLogQueueSize and maxAccessLogBatchSize, kept symbolic. */
  datatype Limits = Limits(queue: nat, batch: nat) {
    predicate Valid() { 0 < batch <= queue }
  }

  const SOURCE_LIMITS := Limits(MAX_QUEUE_SIZE, MAX_BATCH_SIZE)

  /** Where the reporter is: in its select loop, in a post (the last one or not), or returned. */
  datatype Phase = Looping | Posting(final: bool) | Exited

  datatype State = State(
    accepted: seq<Entry>, delivered: seq<Entry>, inflight: seq<Entry>, buffered: seq<Entry>, dropped: seq<Entry>,
    phase: Phase, cancelled: bool)
  {
    function Kept(): seq<Entry> { delivered + inflight + buffered }
  }

  datatype Step =
    | Record(item: Item)     // any connection, any time
    | Cancel                 // the run context ends
    | Drain(final: bool)     // a report begins; the final one follows cancellation
    | PostOk
    | PostFail               // includes the Restore, one critical section

  const Init := State([], [], [], [], [], Looping, false)

  predicate Enabled(s: State, step: Step) {
    match step
    case Record(_) => true
    case Cancel => true
    case Drain(final) => s.phase == Looping && (final ==> s.cancelled)
    case PostOk => s.phase.Posting?
    case PostFail => s.phase.Posting?
  }

  function AfterReport(final: bool): Phase {
    if final then Exited else Looping
  }

  function Apply(lim: Limits, s: State, step: Step): State
    requires Enabled(s, step)
  {
    match step
    case Record(item) =>
      if !Recordable(item) || |s.buffered| >= lim.queue then s
      else
        var e := Entry(|s.accepted|, item);
        s.(accepted := s.accepted + [e], buffered := Enqueue(s.buffered, e, lim.queue))
    case Cancel => s.(cancelled := true)
    case Drain(final) =>
      var k := Take(|s.buffered|, lim.batch);
      if k == 0 then s.(phase := AfterReport(final))
      else s.(inflight := s.buffered[..k], buffered := s.buffered[k..], phase := Posting(final))
    case PostOk =>
      s.(delivered := s.delivered + s.inflight, inflight := [], phase := AfterReport(s.phase.final))
    case PostFail =>
      var kept := Requeue(s.inflight, s.buffered, lim.queue);
      s.(inflight := [], buffered := kept, dropped := s.dropped + (s.inflight + s.buffered)[|kept|..],
         phase := AfterReport(s.phase.final))
  }

  predicate Runs(lim: Limits, s: State, steps: seq<Step>)
    decreases |steps|
  {
    steps == [] || (Enabled(s, steps[0]) && Runs(lim, Apply(lim, s, steps[0]), steps[1..]))
  }

  function Exec(lim: Limits, s: State, steps: seq<Step>): State
    requires Runs(lim, s, steps)
    decreases |steps|
  {
    if steps == [] then s else Exec(lim, Apply(lim, s, steps[0]), steps[1..])
  }

  // ----- The invariant -----

  predicate Ascending(es: seq<Entry>) {
    forall i, j :: 0 <= i < j < |es| ==> es[i].stamp < es[j].stamp
  }

  predicate Stamped(es: seq<Entry>) {
    forall i :: 0 <= i < |es| ==> es[i].stamp == i
  }

  ghost predicate Inv(lim: Limits, s: State) {
    && lim.Valid()
    && |s.buffered| <= lim.queue && |s.inflight| <= lim.batch
    && (s.phase.Posting? <==> s.inflight != [])
    && Stamped(s.accepted)
    && Ascending(s.Kept())
    && multiset(s.Kept()) + multiset(s.dropped) == multiset(s.accepted)
  }

  lemma KeptAreAccepted(lim: Limits, s: State, e: Entry)
    requires Inv(lim, s) && (e in s.Kept() || e in s.dropped)
    ensures e.stamp < |s.accepted| && s.accepted[e.stamp] == e
  {
    assert e in multiset(s.Kept()) || e in multiset(s.dropped);
    assert e in multiset(s.accepted);
    assert e in s.accepted;
  }

  lemma AscendingPrefix(es: seq<Entry>, n: nat)
    requires Ascending(es) && n <= |es|
    ensures Ascending(es[..n])
  {
  }

  lemma InvRecord(lim: Limits, s: State, item: Item)
    requires Inv(lim, s)
    ensures Inv(lim, Apply(lim, s, Record(item)))
  {
    hide Recordable;
    if Recordable(item) && |s.buffered| < lim.queue {
      var e := Entry(|s.accepted|, item);
      var s' := Apply(lim, s, Record(item));
      assert s'.Kept() == s.Kept() + [e];
      forall i | 0 <= i < |s.Kept()| ensures s.Kept()[i].stamp < e.stamp {
        KeptAreAccepted(lim, s, s.Kept()[i]);
      }
    }
  }

  lemma InvDrain(lim: Limits, s: State, final: bool)
    requires Inv(lim, s) && Enabled(s, Drain(final))
    ensures Inv(lim, Apply(lim, s, Drain(final)))
  {
    hide Ascending, Stamped, Apply;
    DrainKeeps(lim, s, final);
  }

  lemma DrainKeeps(lim: Limits, s: State, final: bool)
    requires Enabled(s, Drain(final)) && s.inflight == [] && lim.Valid()
    ensures
      var t := Apply(lim, s, Drain(final));
      && t.Kept() == s.Kept() && t.accepted == s.accepted && t.dropped == s.dropped
      && |t.buffered| <= |s.buffered| && |t.inflight| <= lim.batch && (t.phase.Posting? <==> t.inflight != [])
  {
    var k := Take(|s.buffered|, lim.batch);
    assert s.buffered == s.buffered[..k] + s.buffered[k..];
  }

  lemma RequeueSplits<T>(front: seq<T>, batch: seq<T>, q: seq<T>, limit: nat)
    requires batch != []
    ensures
      var both, kept := batch + q, Requeue(batch, q, limit);
      && |kept| <= |both|
      && front + batch + q == front + kept + both[|kept|..]
      && front + kept == (front + batch + q)[..|front + kept|]
  {
    var both, kept := batch + q, Requeue(batch, q, limit);
    assert both == kept + both[|kept|..];
    assert front + batch + q == front + both;
  }

  lemma InvPostFail(lim: Limits, s: State)
    requires Inv(lim, s) && s.phase.Posting?
    ensures Inv(lim, Apply(lim, s, PostFail))
  {
    hide Ascending, Stamped;
    var s' := Apply(lim, s, PostFail);
    RequeueSplits(s.delivered, s.inflight, s.buffered, lim.queue);
    var cut := (s.inflight + s.buffered)[|s'.buffered|..];
    assert s'.Kept() == s.delivered + s'.buffered;
    assert s.Kept() == s'.Kept() + cut;
    AscendingPrefix(s.Kept(), |s'.Kept()|);
    assert multiset(s.Kept()) == multiset(s'.Kept()) + multiset(cut);
  }

  lemma InvStep(lim: Limits, s: State, step: Step)
    requires Inv(lim, s) && Enabled(s, step)
    ensures Inv(lim, Apply(lim, s, step))
  {
    hide Ascending, Stamped, Recordable;
    match step
    case Record(item) => InvRecord(lim, s, item);
    case Cancel =>
    case Drain(final) => InvDrain(lim, s, final);
    case PostOk =>
      assert Apply(lim, s, step).Kept() == s.Kept();
    case PostFail => InvPostFail(lim, s);
  }

  lemma {:induction false} InvRun(lim: Limits, s: State, steps: seq<Step>)
    requires Inv(lim, s) && Runs(lim, s, steps)
    ensures Inv(lim, Exec(lim, s, steps))
    decreases |steps|
  {
    if steps != [] {
      InvStep(lim, s, steps[0]);
      InvRun(lim, Apply(lim, s, steps[0]), steps[1..]);
    }
  }

  // ----- What every run guarantees -----

  /** `a` is an in-order selection of the elements of `b`, at the positions `at`. */
  ghost predicate SelectedAt<T>(a: seq<T>, b: seq<T>, at: seq<nat>) {
    && |at| == |a|
    && (forall i :: 0 <= i < |a| ==> at[i] < |b| && b[at[i]] == a[i])
    && (forall i, j :: 0 <= i < j < |a| ==> at[i] < at[j])
  }

  ghost predicate IsSubsequence<T>(a: seq<T>, b: seq<T>) {
    exists at :: SelectedAt(a, b, at)
  }

  /**
   * Order and conservation over any interleaving: what was delivered, then what is being posted, then
   * what waits is an in-order subsequence of what was accepted; every accepted record is in exactly
   * one of the four places; both bounds hold.
   */
  lemma FifoAndConservation(lim: Limits, steps: seq<Step>)
    requires lim.Valid() && Runs(lim, Init, steps)
    ensures
      var s := Exec(lim, Init, steps);
      && IsSubsequence(s.Kept(), s.accepted)
      && |s.accepted| == |s.delivered| + |s.inflight| + |s.buffered| + |s.dropped|
      && multiset(s.accepted) == multiset(s.delivered) + multiset(s.inflight) + multiset(s.buffered) + multiset(s.dropped)
      && (forall e :: e in s.accepted ==> multiset(s.accepted)[e] == 1)
      && |s.buffered| <= lim.queue && |s.inflight| <= lim.batch
  {
    InvRun(lim, Init, steps);
    var s := Exec(lim, Init, steps);
    var at := seq(|s.Kept()|, i requires 0 <= i < |s.Kept()| => s.Kept()[i].stamp);
    forall i | 0 <= i < |s.Kept()| ensures at[i] < |s.accepted| && s.accepted[at[i]] == s.Kept()[i] {
      KeptAreAccepted(lim, s, s.Kept()[i]);
    }
    assert SelectedAt(s.Kept(), s.accepted, at);
    assert |multiset(s.accepted)| == |multiset(s.Kept()) + multiset(s.dropped)|;
    forall e | e in s.accepted ensures multiset(s.accepted)[e] == 1 {
      StampedOnce(s.accepted, e);
    }
  }

  lemma {:induction false} StampedOnce(es: seq<Entry>, e: Entry)
    requires Stamped(es)
    ensures multiset(es)[e] <= 1 && (e in es ==> multiset(es)[e] == 1)
  {
    if es != [] {
      var init, last := es[..|es| - 1], es[|es| - 1];
      assert es == init + [last];
      StampedOnce(init, e);
      assert last !in init;
    }
  }

  /** Strictly ascending stamps drawn from a stamped log of the same length are that log. */
  lemma AscendingAndFullIsEqual(a: seq<Entry>, b: seq<Entry>)
    requires Ascending(a) && Stamped(b) && |a| == |b|
    requires forall i :: 0 <= i < |a| ==> a[i].stamp < |b| && b[a[i].stamp] == a[i]
    ensures a == b
  {
    forall i | 0 <= i < |a| ensures a[i] == b[i] {
      StampAtLeast(a, i);
      StampAtMost(a, i);
    }
  }

  lemma {:induction false} StampAtLeast(a: seq<Entry>, i: nat)
    requires Ascending(a) && i < |a|
    ensures a[i].stamp >= i
  {
    if i > 0 { StampAtLeast(a, i - 1); }
  }

  lemma {:induction false} StampAtMost(a: seq<Entry>, i: nat)
    requires Ascending(a) && i < |a| && (forall k :: 0 <= k < |a| ==> a[k].stamp < |a|)
    ensures a[i].stamp <= i
    decreases |a| - i
  {
    if i + 1 < |a| { StampAtMost(a, i + 1); }
  }

  lemma {:induction false} DropsNeedFailures(lim: Limits, s: State, steps: seq<Step>)
    requires Runs(lim, s, steps) && PostFail !in steps
    ensures Exec(lim, s, steps).dropped == s.dropped
    decreases |steps|
  {
    if steps != [] {
      assert steps[0] != PostFail;
      DropsNeedFailures(lim, Apply(lim, s, steps[0]), steps[1..]);
    }
  }

  /** Nothing is missing exactly when nothing was cut, and without a failed post nothing ever is. */
  lemma NoFailureNoLoss(lim: Limits, steps: seq<Step>)
    requires lim.Valid() && Runs(lim, Init, steps)
    ensures var s := Exec(lim, Init, steps); s.Kept() == s.accepted <==> s.dropped == []
    ensures var s := Exec(lim, Init, steps); PostFail !in steps ==> s.Kept() == s.accepted
  {
    FifoAndConservation(lim, steps);
    InvRun(lim, Init, steps);
    var s := Exec(lim, Init, steps);
    if PostFail !in steps { DropsNeedFailures(lim, Init, steps); }
    if s.dropped == [] {
      forall i | 0 <= i < |s.Kept()| ensures s.Kept()[i].stamp < |s.accepted| && s.accepted[s.Kept()[i].stamp] == s.Kept()[i] {
        KeptAreAccepted(lim, s, s.Kept()[i]);
      }
      AscendingAndFullIsEqual(s.Kept(), s.accepted);
    }
  }

  /** Steps that can interleave with a post. */
  predicate Background(steps: seq<Step>) {
    forall step <- steps :: step.Record? || step.Cancel?
  }

  /** From `s` to `t` only arrivals changed the log: they are appended, in order. */
  ghost predicate OnlyArrivals(s: State, t: State) {
    && s.accepted <= t.accepted
    && t.buffered == s.buffered + t.accepted[|s.accepted|..]
    && t.delivered == s.delivered && t.inflight == s.inflight && t.dropped == s.dropped && t.phase == s.phase
  }

  lemma OnlyArrivalsTransitive(s: State, m: State, t: State)
    requires OnlyArrivals(s, m) && OnlyArrivals(m, t)
    ensures OnlyArrivals(s, t)
  {
    assert t.accepted[|s.accepted|..] == m.accepted[|s.accepted|..] + t.accepted[|m.accepted|..];
  }

  lemma {:induction false} BackgroundAppends(lim: Limits, s: State, steps: seq<Step>)
    requires Background(steps)
    ensures Runs(lim, s, steps) && OnlyArrivals(s, Exec(lim, s, steps))
    decreases |steps|
  {
    if steps == [] {
      assert s.accepted[|s.accepted|..] == [];
    } else {
      assert steps[0] in steps;
      var m := Apply(lim, s, steps[0]);
      assert OnlyArrivals(s, m);
      BackgroundAppends(lim, m, steps[1..]);
      OnlyArrivalsTransitive(s, m, Exec(lim, m, steps[1..]));
    }
  }

  /** The restore on plain sequences: `front` was posted, `back` stayed queued, `arrived` came meanwhile. */
  lemma RestoreCutsArrivals<T>(front: seq<T>, back: seq<T>, arrived: seq<T>, limit: nat)
    requires front != [] && |front + back| <= limit
    ensures
      var both := front + (back + arrived);
      var kept := Requeue(front, back + arrived, limit);
      var lost := |both| - |kept|;
      && front + back <= kept <= both
      && lost == (if |both| > limit then |both| - limit else 0)
      && lost <= |arrived| && both[|kept|..] == arrived[|arrived| - lost..]
  {
    var all, both := front + back, front + (back + arrived);
    assert both == all + arrived;
    if |both| > limit {
      assert both[..limit] == all + arrived[..limit - |all|];
      assert both[limit..] == arrived[limit - |all|..];
    } else {
      assert both[|both|..] == arrived[|arrived|..];
    }
  }

  /**
   * What a failed post leaves in `t`: `queued`, the buffer as it stood when the drain ran in `s`, is a
   * prefix of the buffer; what is lost is exactly the overflow, never more than a batch, and it is the
   * newest end of what was recorded while the post was in flight.
   */
  ghost predicate OnlyNewestLost(lim: Limits, s: State, queued: seq<Entry>, posting: State, t: State) {
    var total := |posting.inflight| + |posting.buffered|;
    && queued <= t.buffered && t.delivered == s.delivered && s.accepted <= t.accepted && s.dropped <= t.dropped
    && var lost := t.dropped[|s.dropped|..];
    && |lost| == (if total > lim.queue then total - lim.queue else 0)
    && |lost| <= lim.batch && |lost| <= |t.accepted| - |s.accepted|
    && lost == t.accepted[|t.accepted| - |lost|..]
    && (forall e <- lost :: e.stamp >= |s.accepted|)
  }

  /** A failed report never loses an older record, whatever interleaves with the post. */
  lemma FailedReportKeepsOlderRecords(lim: Limits, s: State, final: bool, during: seq<Step>)
    requires Inv(lim, s) && Enabled(s, Drain(final)) && s.buffered != [] && Background(during)
    ensures Runs(lim, Apply(lim, s, Drain(final)), during)
    ensures
      var posting := Exec(lim, Apply(lim, s, Drain(final)), during);
      && posting.phase == Posting(final)
      && OnlyNewestLost(lim, s, s.buffered, posting, Apply(lim, posting, PostFail))
  {
    var drained := Apply(lim, s, Drain(final));
    DrainSplits(lim, s, final);
    BackgroundAppends(lim, drained, during);
    InvRun(lim, drained, during);
    PostFailCutsArrivals(lim, s, final, Exec(lim, drained, during));
  }

  lemma DrainSplits(lim: Limits, s: State, final: bool)
    requires Inv(lim, s) && Enabled(s, Drain(final)) && s.buffered != []
    ensures
      var drained := Apply(lim, s, Drain(final));
      Inv(lim, drained) && drained.inflight + drained.buffered == s.buffered && drained.phase == Posting(final)
  {
    hide Ascending, Stamped, Apply;
    InvStep(lim, s, Drain(final));
    DrainTakes(lim, s, final);
  }

  lemma DrainTakes(lim: Limits, s: State, final: bool)
    requires lim.Valid() && Enabled(s, Drain(final)) && s.buffered != []
    ensures
      var drained := Apply(lim, s, Drain(final));
      drained.inflight + drained.buffered == s.buffered && drained.phase == Posting(final)
  {
  }

  lemma PostFailCutsArrivals(lim: Limits, s: State, final: bool, posting: State)
    requires Enabled(s, Drain(final)) && s.buffered != [] && |s.buffered| <= lim.queue
    requires OnlyArrivals(Apply(lim, s, Drain(final)), posting)
    requires Inv(lim, posting) && posting.phase.Posting?
    ensures OnlyNewestLost(lim, s, s.buffered, posting, Apply(lim, posting, PostFail))
  {
    hide Ascending, Recordable;
    var t := Apply(lim, posting, PostFail);
    var back := Apply(lim, s, Drain(final)).buffered;
    var arrived := posting.accepted[|s.accepted|..];
    RestoreCutsArrivals(posting.inflight, back, arrived, lim.queue);
    DrainTakes(lim, s, final);
    assert t.dropped[|s.dropped|..] == (posting.inflight + posting.buffered)[|t.buffered|..];
    ArrivalsAreNew(posting.accepted, |s.accepted|);
  }

  lemma ArrivalsAreNew(accepted: seq<Entry>, n: nat)
    requires Stamped(accepted) && n <= |accepted|
    ensures forall e <- accepted[n..] :: e.stamp >= n
  {
  }

  // ----- The reporter goes on, and ends -----

  /** The reporter has begun its final report, or has returned. */
  predicate Final(s: State) { s.phase == Exited || s.phase == Posting(true) }

  lemma {:induction false} FinalIff(lim: Limits, s: State, steps: seq<Step>)
    requires Runs(lim, s, steps)
    ensures Final(Exec(lim, s, steps)) <==> Final(s) || Drain(true) in steps
    ensures Exec(lim, s, steps).cancelled <==> s.cancelled || Cancel in steps
    ensures Drain(true) in steps ==> Exec(lim, s, steps).cancelled
    decreases |steps|
  {
    if steps != [] {
      var m := Apply(lim, s, steps[0]);
      assert Final(m) <==> Final(s) || steps[0] == Drain(true);
      FinalIff(lim, m, steps[1..]);
    }
  }

  /**
   * After any run the reporter has returned if and only if it began its final report and no post is in
   * flight, and it begins that one only after cancellation; otherwise it is in its select loop, or posting.
   */
  lemma ExitedIff(lim: Limits, steps: seq<Step>)
    requires lim.Valid() && Runs(lim, Init, steps)
    ensures
      var s := Exec(lim, Init, steps);
      && (s.phase == Exited <==> Drain(true) in steps && s.inflight == [])
      && (s.phase == Looping <==> Drain(true) !in steps && s.inflight == [])
      && (Drain(true) in steps ==> Cancel in steps)
  {
    FinalIff(lim, Init, steps);
    InvRun(lim, Init, steps);
  }

  predicate IsReport(step: Step) { step == Drain(false) || step == PostOk }

  /**
   * Until the final report the reporter can always deliver everything: from any state that a run without one
   * reaches, ordinary reports whose posts succeed empty the queue, in order and without losing a record.
   */
  lemma CanDeliverAll(lim: Limits, steps: seq<Step>) returns (more: seq<Step>)
    requires lim.Valid() && Runs(lim, Init, steps) && Drain(true) !in steps
    ensures
      var s := Exec(lim, Init, steps);
      && Runs(lim, s, more) && (forall step <- more :: IsReport(step))
      && var t := Exec(lim, s, more);
         t.buffered == t.inflight == [] && t.delivered == s.Kept() && t.accepted == s.accepted && t.phase == Looping
  {
    FinalIff(lim, Init, steps);
    InvRun(lim, Init, steps);
    more := Deliver(lim, Exec(lim, Init, steps));
  }

  lemma {:induction false} Deliver(lim: Limits, s: State) returns (more: seq<Step>)
    requires Inv(lim, s) && !Final(s)
    ensures Runs(lim, s, more) && (forall step <- more :: IsReport(step))
    ensures
      var t := Exec(lim, s, more);
      t.buffered == t.inflight == [] && t.delivered == s.Kept() && t.accepted == s.accepted && t.phase == Looping
    decreases 2 * |s.buffered| + |s.inflight|
  {
    more := [];
    if s.inflight != [] || s.buffered != [] {
      var step := if s.inflight != [] then PostOk else Drain(false);
      var t := Apply(lim, s, step);
      assert !Final(t);
      ReportKeeps(lim, s, step);
      var rest := Deliver(lim, t);
      more := [step] + rest;
      assert more[1..] == rest;
    }
  }

  lemma ReportKeeps(lim: Limits, s: State, step: Step)
    requires Inv(lim, s) && Enabled(s, step) && IsReport(step) && (s.inflight != [] || s.buffered != [])
    ensures
      var t := Apply(lim, s, step);
      && Inv(lim, t) && t.Kept() == s.Kept() && t.accepted == s.accepted
      && 2 * |t.buffered| + |t.inflight| < 2 * |s.buffered| + |s.inflight|
  {
    hide Ascending, Stamped;
    InvStep(lim, s, step);
    if step == Drain(false) { DrainKeeps(lim, s, false); }
  }

  // ----- Shutdown -----

  lemma {:induction false} ExitedReporterDeliversNothing(lim: Limits, s: State, steps: seq<Step>)
    requires s.phase == Exited && Runs(lim, s, steps)
    ensures var t := Exec(lim, s, steps); t.phase == Exited && t.delivered == s.delivered && s.buffered <= t.buffered
    decreases |steps|
  {
    if steps != [] {
      ExitedReporterDeliversNothing(lim, Apply(lim, s, steps[0]), steps[1..]);
    }
  }

  /**
   * What the final flush achieves: it sends one batch, so everything queued when it starts reaches the
   * control plane if and only if it fits in a batch (and the post succeeds); the rest, and whatever is
   * recorded later, stays behind for good.
   */
  lemma FinalFlushDeliversIffOneBatch(lim: Limits, s: State, during: seq<Step>, later: seq<Step>)
    requires Inv(lim, s) && Enabled(s, Drain(true)) && s.buffered != [] && Background(during)
    requires
      var posting := Apply(lim, s, Drain(true));
      Runs(lim, posting, during) && Exec(lim, posting, during).phase.Posting? &&
      Runs(lim, Apply(lim, Exec(lim, posting, during), PostOk), later)
    ensures
      var done := Apply(lim, Exec(lim, Apply(lim, s, Drain(true)), during), PostOk);
      var t := Exec(lim, done, later);
      t.phase == Exited && (s.delivered + s.buffered <= t.delivered <==> |s.buffered| <= lim.batch)
  {
    var drained := Apply(lim, s, Drain(true));
    BackgroundAppends(lim, drained, during);
    var done := Apply(lim, Exec(lim, drained, during), PostOk);
    ExitedReporterDeliversNothing(lim, done, later);
    assert done.delivered == s.delivered + s.buffered[..Take(|s.buffered|, lim.batch)];
  }

  lemma {:induction false} RunThen(lim: Limits, s: State, first: seq<Step>, rest: seq<Step>)
    requires Runs(lim, s, first) && Runs(lim, Exec(lim, s, first), rest)
    ensures Runs(lim, s, first + rest) && Exec(lim, s, first + rest) == Exec(lim, Exec(lim, s, first), rest)
    decreases |first|
  {
    hide Apply, Enabled;
    if first == [] {
      assert first + rest == rest;
    } else {
      assert (first + rest)[1..] == first[1..] + rest;
      RunThen(lim, Apply(lim, s, first[0]), first[1..], rest);
    }
  }

  function Burst(item: Item, n: nat): (r: seq<Step>)
    ensures |r| == n && Background(r)
  {
    seq(n, i => Record(item))
  }

  /** A burst that fits is accepted whole. */
  lemma {:induction false} BurstFits(lim: Limits, s: State, item: Item, n: nat)
    requires Recordable(item) && |s.buffered| + n <= lim.queue
    ensures Runs(lim, s, Burst(item, n))
    ensures var t := Exec(lim, s, Burst(item, n)); |t.buffered| == |s.buffered| + n && |t.accepted| == |s.accepted| + n
    ensures OnlyArrivals(s, Exec(lim, s, Burst(item, n)))
    decreases n
  {
    hide Recordable;
    BackgroundAppends(lim, s, Burst(item, n));
    if n > 0 {
      assert Burst(item, n)[1..] == Burst(item, n - 1);
      BurstFits(lim, Apply(lim, s, Record(item)), item, n - 1);
    }
  }

  /** A burst of one record more than a batch, cancellation, and a final flush whose post succeeds. */
  function ShortFlush(lim: Limits, item: Item): seq<Step> {
    Burst(item, lim.batch + 1) + [Cancel, Drain(true), PostOk]
  }

  /**
   * It does happen: no post failed and nothing was cut, the reporter has returned, and one accepted record is
   * still queued and stays queued whatever follows.
   */
  lemma FlushLeavesRecord(lim: Limits, item: Item, later: seq<Step>)
    requires lim.Valid() && lim.batch < lim.queue && Recordable(item)
    ensures Runs(lim, Init, ShortFlush(lim, item))
    ensures
      var done := Exec(lim, Init, ShortFlush(lim, item));
      && done.phase == Exited && done.dropped == [] && |done.accepted| == lim.batch + 1 && |done.buffered| == 1
      && (Runs(lim, done, later) ==>
            var t := Exec(lim, done, later); |t.delivered| == lim.batch && done.buffered <= t.buffered)
  {
    hide Recordable, Stamped, Ascending;
    var burst := Burst(item, lim.batch + 1);
    BurstFits(lim, Init, item, lim.batch + 1);
    var full := Exec(lim, Init, burst);
    FlushOf(lim, full);
    RunThen(lim, Init, burst, [Cancel, Drain(true), PostOk]);
    var done := Exec(lim, Init, ShortFlush(lim, item));
    if Runs(lim, done, later) { ExitedReporterDeliversNothing(lim, done, later); }
  }

  lemma FlushOf(lim: Limits, s: State)
    requires lim.Valid() && s.phase == Looping && |s.buffered| == lim.batch + 1 && s.delivered == [] && s.inflight == []
    ensures Runs(lim, s, [Cancel, Drain(true), PostOk])
    ensures
      var t := Exec(lim, s, [Cancel, Drain(true), PostOk]);
      t.phase == Exited && t.accepted == s.accepted && t.dropped == s.dropped && |t.buffered| == 1 && |t.delivered| == lim.batch
  {
    var one, two, three := Apply(lim, s, Cancel), Apply(lim, Apply(lim, s, Cancel), Drain(true)), [Cancel, Drain(true), PostOk];
    assert three[1..] == [Drain(true), PostOk] && three[1..][1..] == [PostOk] && [PostOk][1..] == [];
    assert two.phase == Posting(true);
    assert Runs(lim, two, [PostOk]) && Exec(lim, two, [PostOk]) == Apply(lim, two, PostOk);
    assert Runs(lim, one, [Drain(true), PostOk]);
  }

  // ----- The protocol's steps are the heap methods -----

  function Items(es: seq<Entry>): (r: seq<Item>)
    ensures |r| == |es|
  {
    seq(|es|, i requires 0 <= i < |es| => es[i].item)
  }

  /** The items of the record steps, in order. */
  function RecordedBy(steps: seq<Step>): seq<Item> {
    if steps == [] then [] else (if steps[0].Record? then [steps[0].item] else []) + RecordedBy(steps[1..])
  }

  /** The record steps of the protocol, whatever lies between them, are what Record does to the contents. */
  lemma {:induction false} RecordsProject(s: State, steps: seq<Step>)
    requires Background(steps)
    ensures Runs(SOURCE_LIMITS, s, steps)
    ensures Items(Exec(SOURCE_LIMITS, s, steps).buffered) == RecordedAll(Items(s.buffered), RecordedBy(steps))
    decreases |steps|
  {
    hide Recordable;
    if steps != [] {
      assert steps[0] in steps;
      var s' := Apply(SOURCE_LIMITS, s, steps[0]);
      RecordProjects(s, steps[0]);
      RecordsProject(s', steps[1..]);
      if steps[0].Record? {
        assert RecordedBy(steps)[0] == steps[0].item && RecordedBy(steps)[1..] == RecordedBy(steps[1..]);
      } else {
        assert RecordedBy(steps) == RecordedBy(steps[1..]);
      }
    }
  }

  lemma RecordProjects(s: State, step: Step)
    requires step.Record? || step.Cancel?
    ensures
      Items(Apply(SOURCE_LIMITS, s, step).buffered) ==
      if step.Record? then Recorded(Items(s.buffered), step.item) else Items(s.buffered)
  {
    hide Recordable;
  }

  lemma ItemsConcat(a: seq<Entry>, b: seq<Entry>)
    ensures Items(a + b) == Items(a) + Items(b)
  {
  }

  lemma ItemsRequeue(batch: seq<Entry>, q: seq<Entry>, limit: nat)
    ensures Items(Requeue(batch, q, limit)) == Requeue(Items(batch), Items(q), limit)
  {
    ItemsConcat(batch, q);
    if batch != [] && |batch + q| > limit {
      assert Items((batch + q)[..limit]) == Items(batch + q)[..limit];
    }
  }

  /**
   * A report of the protocol, the final one included and with records and cancellation in between, seen
   * through the items, is what AccessLogBuffer.ReportAccessLogs promises of the heap: the same batch, and
   * the same contents afterwards, on both outcomes.
   */
  lemma ReportProjects(s: State, final: bool, during: seq<Step>, succeeds: bool)
    requires Inv(SOURCE_LIMITS, s) && Enabled(s, Drain(final)) && s.buffered != [] && Background(during)
    ensures
      var drained := Apply(SOURCE_LIMITS, s, Drain(final));
      Runs(SOURCE_LIMITS, drained, during) &&
      var posting := Exec(SOURCE_LIMITS, drained, during);
      posting.phase == Posting(final) &&
      var t := Apply(SOURCE_LIMITS, posting, if succeeds then PostOk else PostFail);
      var q := Items(s.buffered);
      var posted := q[..Take(|q|, MAX_BATCH_SIZE)];
      var rest := RecordedAll(q[|posted|..], RecordedBy(during));
      && Items(posting.inflight) == posted
      && Items(t.delivered) == Items(s.delivered) + (if succeeds then posted else [])
      && Items(t.buffered) == if succeeds then rest else Requeue(posted, rest, MAX_QUEUE_SIZE)
  {
    hide RecordedAll, RecordedBy, Recordable;
    var drained := Apply(SOURCE_LIMITS, s, Drain(final));
    BackgroundAppends(SOURCE_LIMITS, drained, during);
    RecordsProject(drained, during);
    var posting := Exec(SOURCE_LIMITS, drained, during);
    assert Items(drained.buffered) == Items(s.buffered)[|drained.inflight|..];
    ItemsRequeue(posting.inflight, posting.buffered, MAX_QUEUE_SIZE);
    ItemsConcat(s.delivered, posting.inflight);
    assert Items(s.delivered) + [] == Items(s.delivered);
  }
}
