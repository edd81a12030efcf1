/**
 * What the counters mean. Tokens, the wait group of connections and the metrics are all counts of
 * goroutines at certain points; every step of every goroutine keeps them exact.
 */
module ServiceAccounts {
  import opened Wrappers
  import opened ServiceRun

  /** A property of a handler that some counter counts. */
  datatype Trait =
    | HoldsToken(i: nat)       // a handler of inbound i that has not released yet
    | Active | Counted | Alive | HasEnded
    | From(i: nat)
    | FailedWith(kind: ErrorKind)
    | FailedAtAll
    | BetweenBegins

  function Rank(pc: Pc): nat {
    match pc
    case Spawned => 0 case Activated => 1 case Serving(_) => 2 case Unwinding => 3
    case LocalClosed => 4 case Ended => 5 case Released => 6 case Gone => 7
  }

  predicate Has(h: Handler, t: Trait) {
    match t
    case HoldsToken(i) => h.inbound == i && Rank(h.pc) <= 5
    case Active => 1 <= Rank(h.pc) <= 4
    case Counted => Rank(h.pc) >= 2
    case Alive => h.pc != Gone
    case HasEnded => Rank(h.pc) >= 5
    case From(i) => h.inbound == i
    case FailedWith(kind) => h.error == Some(kind)
    case FailedAtAll => h.error.Some?
    case BetweenBegins => h.pc == Activated
  }

  function One(b: bool): int { if b then 1 else 0 }

  function Count(hs: seq<Handler>, t: Trait): (n: int)
    ensures 0 <= n <= |hs|
  {
    if hs == [] then 0 else Count(hs[..|hs| - 1], t) + One(Has(hs[|hs| - 1], t))
  }

  lemma CountAppend(hs: seq<Handler>, h: Handler, t: Trait)
    ensures Count(hs + [h], t) == Count(hs, t) + One(Has(h, t))
  {
    assert (hs + [h])[..|hs|] == hs;
  }

  lemma {:induction false} CountUpdate(hs: seq<Handler>, k: nat, h: Handler, t: Trait)
    requires k < |hs|
    ensures Count(hs[k := h], t) == Count(hs, t) - One(Has(hs[k], t)) + One(Has(h, t))
  {
    var n := |hs| - 1;
    if k == n {
      assert hs[k := h][..n] == hs[..n];
    } else {
      CountUpdate(hs[..n], k, h, t);
      assert hs[k := h][..n] == hs[..n][k := h];
    }
  }

  lemma {:induction false} CountMember(hs: seq<Handler>, k: nat, t: Trait)
    requires k < |hs| && Has(hs[k], t)
    ensures Count(hs, t) >= 1
  {
    if k < |hs| - 1 { CountMember(hs[..|hs| - 1], k, t); }
  }

  // ----- The same for accept loops -----

  datatype LoopTrait = Running | OnWayIn(i: nat) | InTracked | HasSent

  /**
   * A loop is running from its start to its Done, on the way in while it has a connection in hand, tracked
   * between connections.Add and the start of the handler, and has sent once its error is in the channel.
   */
  predicate LoopHas(l: Loop, t: LoopTrait) {
    match t
    case Running => !l.NotStarted? && !l.Finished?
    case OnWayIn(_) => l == Holding || l == Rejecting || l == Admitted || l == Tracked
    case InTracked => l == Tracked
    case HasSent => (l.Finishing? || l.Finished?) && l.sent
  }

  function CountLoops(ls: seq<Loop>, t: LoopTrait): (n: int)
    ensures 0 <= n <= |ls|
  {
    if ls == [] then 0 else CountLoops(ls[..|ls| - 1], t) + One(LoopHas(ls[|ls| - 1], t))
  }

  lemma {:induction false} CountLoopsUpdate(ls: seq<Loop>, k: nat, l: Loop, t: LoopTrait)
    requires k < |ls|
    ensures CountLoops(ls[k := l], t) == CountLoops(ls, t) - One(LoopHas(ls[k], t)) + One(LoopHas(l, t))
  {
    var n := |ls| - 1;
    if k == n {
      assert ls[k := l][..n] == ls[..n];
    } else {
      CountLoopsUpdate(ls[..n], k, l, t);
      assert ls[k := l][..n] == ls[..n][k := l];
    }
  }

  lemma {:induction false} CountLoopsMember(ls: seq<Loop>, k: nat, t: LoopTrait)
    requires k < |ls| && LoopHas(ls[k], t)
    ensures CountLoops(ls, t) >= 1
  {
    if k < |ls| - 1 { CountLoopsMember(ls[..|ls| - 1], k, t); }
  }

  lemma {:induction false} CountLoopsMissing(ls: seq<Loop>, k: nat, t: LoopTrait)
    requires k < |ls| && !LoopHas(ls[k], t)
    ensures CountLoops(ls, t) <= |ls| - 1
  {
    if k < |ls| - 1 { CountLoopsMissing(ls[..|ls| - 1], k, t); }
  }

  function Sum(xs: seq<int>): int {
    if xs == [] then 0 else Sum(xs[..|xs| - 1]) + xs[|xs| - 1]
  }

  lemma {:induction false} SumUpdate(xs: seq<int>, k: nat, x: int)
    requires k < |xs|
    ensures Sum(xs[k := x]) == Sum(xs) - xs[k] + x
  {
    var n := |xs| - 1;
    if k == n {
      assert xs[k := x][..n] == xs[..n];
    } else {
      SumUpdate(xs[..n], k, x);
      assert xs[k := x][..n] == xs[..n][k := x];
    }
  }

  // ----- The invariant -----

  /** The acceptor of inbound i holds a token that no handler owns yet. */
  predicate Pending(l: Loop) { l == Admitted || l == Tracked }

  ghost predicate InboundAccounts(cfg: Config, s: State, i: nat)
    requires Shaped(cfg, s) && i < |cfg.inbounds|
  {
    var limit := cfg.inbounds[i].maxConnections;
    && s.tokens[i] == (if limit == 0 then 0 else Count(s.handlers, HoldsToken(i)) + One(Pending(s.loops[i])))
    && s.tokens[i] <= limit
    && s.acceptedBy[i] == s.rejectedBy[i] + Count(s.handlers, From(i)) + One(LoopHas(s.loops[i], OnWayIn(i)))
    && s.rejectedBy[i] >= 0
  }

  ghost predicate HandlerOk(cfg: Config, h: Handler) {
    && h.inbound < |cfg.inbounds|
    && (h.error.Some? ==> Rank(h.pc) >= 3)
  }

  ghost predicate Accounts(cfg: Config, s: State) {
    && Shaped(cfg, s)
    && (forall h <- s.handlers :: HandlerOk(cfg, h))
    && (forall i :: 0 <= i < |cfg.inbounds| ==> InboundAccounts(cfg, s, i))
    && s.connections == Count(s.handlers, Alive) + CountLoops(s.loops, InTracked)
    && s.metrics.rejected == Sum(s.rejectedBy)
    && MetricsExact(s.handlers, s.metrics)
  }

  ghost predicate MetricsExact(hs: seq<Handler>, m: Counters) {
    && m.active == Count(hs, Active)
    && m.total == Count(hs, Counted)
    && m.ended == Count(hs, HasEnded)
    && m.transport == Count(hs, FailedWith(Transport))
    && m.handshake == Count(hs, FailedWith(Handshake))
    && m.proxy == Count(hs, FailedWith(Proxy))
  }

  // ----- Handler steps -----

  /** How one action of a handler moves it in and out of what the counters count. */
  lemma ActionDeltas(server: bool, h: Handler, a: HandlerAct)
    requires CanAct(server, h.pc, a) && (h.error.Some? ==> Rank(h.pc) >= 3)
    ensures
      var h' := NextHandler(h, a);
      && One(Has(h', Active)) - One(Has(h, Active)) == One(a.BeginActive?) - One(a.EndActive?)
      && One(Has(h', Counted)) - One(Has(h, Counted)) == One(a.BeginTotal?)
      && One(Has(h', HasEnded)) - One(Has(h, HasEnded)) == One(a.EndActive?)
      && One(Has(h', Alive)) - One(Has(h, Alive)) == -One(a.ConnectionDone?)
      && (forall kind :: One(Has(h', FailedWith(kind))) - One(Has(h, FailedWith(kind))) == One(a == Fail(kind)))
      && (forall i :: One(Has(h', HoldsToken(i))) - One(Has(h, HoldsToken(i))) == -One(a.Release? && h.inbound == i))
      && (forall i :: Has(h', From(i)) == Has(h, From(i)))
      && (h'.error.Some? ==> Rank(h'.pc) >= 3) && h'.inbound == h.inbound
  {
  }

  lemma HandlerKeepsMetrics(server: bool, hs: seq<Handler>, m: Counters, k: nat, a: HandlerAct)
    requires k < |hs| && CanAct(server, hs[k].pc, a) && (hs[k].error.Some? ==> Rank(hs[k].pc) >= 3)
    requires MetricsExact(hs, m)
    ensures MetricsExact(hs[k := NextHandler(hs[k], a)], Tally(m, a))
  {
    hide Has, CanAct, NextHandler;
    var h := NextHandler(hs[k], a);
    ActionDeltas(server, hs[k], a);
    CountUpdate(hs, k, h, Active);
    CountUpdate(hs, k, h, Counted);
    CountUpdate(hs, k, h, HasEnded);
    CountUpdate(hs, k, h, FailedWith(Transport));
    CountUpdate(hs, k, h, FailedWith(Handshake));
    CountUpdate(hs, k, h, FailedWith(Proxy));
  }

  lemma HandlerKeepsInbound(cfg: Config, s: State, k: nat, a: HandlerAct, i: nat)
    requires Accounts(cfg, s) && HandlerEnabled(cfg, s, k, a) && i < |cfg.inbounds|
    ensures Shaped(cfg, ApplyHandler(cfg, s, k, a)) && InboundAccounts(cfg, ApplyHandler(cfg, s, k, a), i)
  {
    hide Has, CanAct, NextHandler, MetricsExact, Tally, LoopHas;
    var h := NextHandler(s.handlers[k], a);
    assert InboundAccounts(cfg, s, i) && HandlerOk(cfg, s.handlers[k]);
    ActionDeltas(cfg.inbounds[s.handlers[k].inbound].server, s.handlers[k], a);
    CountUpdate(s.handlers, k, h, HoldsToken(i));
    CountUpdate(s.handlers, k, h, From(i));
  }

  lemma HandlerKeepsAccounts(cfg: Config, s: State, k: nat, a: HandlerAct)
    requires Accounts(cfg, s) && HandlerEnabled(cfg, s, k, a)
    ensures Accounts(cfg, ApplyHandler(cfg, s, k, a))
  {
    hide MetricsExact, InboundAccounts, Has, CanAct, NextHandler, Tally;
    var h := NextHandler(s.handlers[k], a);
    var t := ApplyHandler(cfg, s, k, a);
    var server := cfg.inbounds[s.handlers[k].inbound].server;
    assert HandlerOk(cfg, s.handlers[k]);
    ActionDeltas(server, s.handlers[k], a);
    HandlerKeepsMetrics(server, s.handlers, s.metrics, k, a);
    forall i | 0 <= i < |cfg.inbounds| ensures InboundAccounts(cfg, t, i) { HandlerKeepsInbound(cfg, s, k, a, i); }
    CountUpdate(s.handlers, k, h, Alive);
    RejectedUntouched(s.metrics, a);
    forall g | g in t.handlers ensures HandlerOk(cfg, g) {
      assert g in s.handlers || g == h;
    }
  }

  lemma RejectedUntouched(m: Counters, a: HandlerAct)
    ensures Tally(m, a).rejected == m.rejected
  {
  }

  // ----- Accept-loop steps -----

  /** A handler that has just been spawned is counted as alive, of its inbound and holding its token, and no more. */
  lemma SpawnedTraits(i: nat)
    ensures
      var h := Handler(i, Spawned, None);
      && !Has(h, Active) && !Has(h, Counted) && !Has(h, HasEnded) && Has(h, Alive)
      && (forall kind :: !Has(h, FailedWith(kind)))
      && (forall j :: Has(h, HoldsToken(j)) == (i == j)) && (forall j :: Has(h, From(j)) == (i == j))
  {
  }

  lemma SpawnKeepsMetrics(hs: seq<Handler>, m: Counters, i: nat)
    requires MetricsExact(hs, m)
    ensures MetricsExact(hs + [Handler(i, Spawned, None)], m)
  {
    hide Has;
    var h := Handler(i, Spawned, None);
    SpawnedTraits(i);
    CountAppend(hs, h, Active);
    CountAppend(hs, h, Counted);
    CountAppend(hs, h, HasEnded);
    CountAppend(hs, h, FailedWith(Transport));
    CountAppend(hs, h, FailedWith(Handshake));
    CountAppend(hs, h, FailedWith(Proxy));
  }

  /** How one action of an accept loop moves it between the counted points. */
  lemma LoopDeltas(l: Loop, a: LoopAct, isClosed: bool, stopped: bool, full: bool, i: nat)
    requires CanLoop(l, a, isClosed)
    ensures
      var l' := NextLoop(l, a, stopped, full);
      && One(Pending(l')) - One(Pending(l)) == One(a == TryAcquire && !full) - One(a == Spawn)
      && One(LoopHas(l', OnWayIn(i))) - One(LoopHas(l, OnWayIn(i))) == One(a == Accept) - One(a == CountRejected) - One(a == Spawn)
      && One(LoopHas(l', InTracked)) - One(LoopHas(l, InTracked)) == One(a == AddConnection) - One(a == Spawn)
      && One(LoopHas(l', Running)) - One(LoopHas(l, Running)) == -One(a == LoopDone)
      && One(LoopHas(l', HasSent)) - One(LoopHas(l, HasSent)) == One(a == SendError)
  {
  }

  lemma LoopKeepsInbound(cfg: Config, s: State, i: nat, a: LoopAct, j: nat)
    requires Accounts(cfg, s) && LoopEnabled(cfg, s, i, a) && j < |cfg.inbounds|
    ensures Shaped(cfg, ApplyLoop(cfg, s, i, a)) && InboundAccounts(cfg, ApplyLoop(cfg, s, i, a), j)
  {
    hide Has, MetricsExact, LoopHas, NextLoop, CanLoop, Pending, Count;
    var limit := cfg.inbounds[i].maxConnections;
    assert InboundAccounts(cfg, s, j);
    LoopDeltas(s.loops[i], a, s.closed[i], s.cancelled || s.closed[i], limit > 0 && s.tokens[i] >= limit, i);
    if a == Spawn {
      SpawnedTraits(i);
      CountAppend(s.handlers, Handler(i, Spawned, None), HoldsToken(j));
      CountAppend(s.handlers, Handler(i, Spawned, None), From(j));
    }
  }

  lemma LoopKeepsAccounts(cfg: Config, s: State, i: nat, a: LoopAct)
    requires Accounts(cfg, s) && LoopEnabled(cfg, s, i, a)
    ensures Accounts(cfg, ApplyLoop(cfg, s, i, a))
  {
    hide MetricsExact, InboundAccounts, Has, LoopHas, NextLoop, CanLoop, Count, CountLoops, Sum;
    var t := ApplyLoop(cfg, s, i, a);
    var limit := cfg.inbounds[i].maxConnections;
    forall j | 0 <= j < |cfg.inbounds| ensures InboundAccounts(cfg, t, j) { LoopKeepsInbound(cfg, s, i, a, j); }
    LoopDeltas(s.loops[i], a, s.closed[i], s.cancelled || s.closed[i], limit > 0 && s.tokens[i] >= limit, i);
    CountLoopsUpdate(s.loops, i, t.loops[i], InTracked);
    SumUpdate(s.rejectedBy, i, s.rejectedBy[i] + 1);
    RejectedOnly(s.handlers, s.metrics, t.metrics);
    if a == Spawn {
      SpawnedTraits(i);
      SpawnKeepsMetrics(s.handlers, s.metrics, i);
      CountAppend(s.handlers, Handler(i, Spawned, None), Alive);
    }
  }

  lemma RejectedOnly(hs: seq<Handler>, m: Counters, n: Counters)
    requires MetricsExact(hs, m) && n == m.(rejected := n.rejected)
    ensures MetricsExact(hs, n)
  {
  }

  // ----- Steps of the other goroutines -----

  /** The fields the accounts depend on are the same, and no accept loop moved in or out of a counted point. */
  ghost predicate SameAccounts(s: State, t: State) {
    && t.tokens == s.tokens && t.handlers == s.handlers && t.connections == s.connections && t.metrics == s.metrics
    && t.acceptedBy == s.acceptedBy && t.rejectedBy == s.rejectedBy
    && |t.loops| == |s.loops| && |t.closed| == |s.closed|
    && (forall i :: 0 <= i < |s.loops| ==>
          Pending(t.loops[i]) == Pending(s.loops[i]) && LoopHas(t.loops[i], OnWayIn(i)) == LoopHas(s.loops[i], OnWayIn(i)))
    && CountLoops(t.loops, InTracked) == CountLoops(s.loops, InTracked)
  }

  lemma SameAccountsKeep(cfg: Config, s: State, t: State)
    requires Accounts(cfg, s) && SameAccounts(s, t) && t.bound <= |cfg.inbounds|
    ensures Accounts(cfg, t)
  {
    hide Has, MetricsExact;
    forall i | 0 <= i < |cfg.inbounds| ensures InboundAccounts(cfg, t, i) {
      assert InboundAccounts(cfg, s, i);
    }
  }

  // ----- What the accounts say -----

  /**
   * Admission, per inbound: the tokens held are the handlers that have not released theirs plus the
   * acceptor between acquiring and spawning, and never exceed MaxConnections; every accepted connection
   * is rejected, on its way in, or has a handler.
   */
  lemma Admission(cfg: Config, s: State, i: nat)
    requires Accounts(cfg, s) && i < |cfg.inbounds|
    ensures cfg.inbounds[i].maxConnections > 0 ==>
              && s.tokens[i] == Count(s.handlers, HoldsToken(i)) + One(Pending(s.loops[i]))
              && 0 <= s.tokens[i] <= cfg.inbounds[i].maxConnections
    ensures s.acceptedBy[i] == s.rejectedBy[i] + Count(s.handlers, From(i)) + One(LoopHas(s.loops[i], OnWayIn(i)))
  {
    assert InboundAccounts(cfg, s, i);
  }

  /** The sum of the limits of the first n inbounds. */
  function TotalLimit(cfg: Config, n: nat): nat
    requires n <= |cfg.inbounds|
  {
    if n == 0 then 0 else TotalLimit(cfg, n - 1) + cfg.inbounds[n - 1].maxConnections
  }

  /** Handlers of inbounds below n that hold a token. */
  function TokenHolders(hs: seq<Handler>, n: nat): (r: int)
    ensures r >= 0
  {
    if n == 0 then 0 else TokenHolders(hs, n - 1) + Count(hs, HoldsToken(n - 1))
  }

  lemma {:induction false} TokenHoldersWithinLimit(cfg: Config, s: State, n: nat)
    requires Accounts(cfg, s) && n <= |cfg.inbounds|
    requires forall i :: 0 <= i < |cfg.inbounds| ==> cfg.inbounds[i].maxConnections > 0
    ensures TokenHolders(s.handlers, n) <= TotalLimit(cfg, n)
  {
    if n > 0 {
      TokenHoldersWithinLimit(cfg, s, n - 1);
      Admission(cfg, s, n - 1);
    }
  }

  lemma {:induction false} TokenHoldersAppend(hs: seq<Handler>, h: Handler, n: nat)
    ensures TokenHolders(hs + [h], n) == TokenHolders(hs, n) + One(h.inbound < n && Rank(h.pc) <= 5)
  {
    if n > 0 {
      TokenHoldersAppend(hs, h, n - 1);
      CountAppend(hs, h, HoldsToken(n - 1));
    }
  }

  lemma {:induction false} TokenHoldersEmpty(n: nat)
    ensures TokenHolders([], n) == 0
  {
    if n > 0 { TokenHoldersEmpty(n - 1); }
  }

  /** Active handlers hold a token, of one inbound each. */
  lemma {:induction false} ActiveHoldTokens(hs: seq<Handler>, n: nat)
    requires forall h <- hs :: h.inbound < n
    ensures Count(hs, Active) <= TokenHolders(hs, n)
  {
    if hs == [] {
      TokenHoldersEmpty(n);
    } else {
      var init, last := hs[..|hs| - 1], hs[|hs| - 1];
      assert hs == init + [last] && last in hs;
      ActiveHoldTokens(init, n);
      TokenHoldersAppend(init, last, n);
    }
  }

  /**
   * With every inbound bounded the active gauge never exceeds the sum of the limits: the token is
   * acquired before active rises and released after it falls.
   */
  lemma ActiveBounded(cfg: Config, s: State)
    requires Accounts(cfg, s)
    requires forall i :: 0 <= i < |cfg.inbounds| ==> cfg.inbounds[i].maxConnections > 0
    ensures 0 <= s.metrics.active <= TotalLimit(cfg, |cfg.inbounds|)
  {
    assert forall h <- s.handlers :: HandlerOk(cfg, h);
    ActiveHoldTokens(s.handlers, |cfg.inbounds|);
    TokenHoldersWithinLimit(cfg, s, |cfg.inbounds|);
  }

  /** A handler has at most one error, and only after it was counted in total. */
  lemma {:induction false} ErrorsAreCounted(cfg: Config, hs: seq<Handler>)
    requires forall h <- hs :: HandlerOk(cfg, h)
    ensures Count(hs, FailedWith(Transport)) + Count(hs, FailedWith(Handshake)) + Count(hs, FailedWith(Proxy))
         == Count(hs, FailedAtAll) <= Count(hs, Counted)
  {
    if hs != [] {
      ErrorsAreCounted(cfg, hs[..|hs| - 1]);
      var last := hs[|hs| - 1];
      assert last in hs && HandlerOk(cfg, last);
      assert Has(last, FailedAtAll) ==> Has(last, Counted);
      match last.error { case None => case Some(Transport) => case Some(Handshake) => case Some(Proxy) => }
    }
  }

  lemma {:induction false} BeginsAndEnds(hs: seq<Handler>)
    ensures Count(hs, Active) + Count(hs, HasEnded) == Count(hs, Counted) + Count(hs, BetweenBegins)
  {
    if hs != [] { BeginsAndEnds(hs[..|hs| - 1]); }
  }

  /**
   * Error accounting: a connection adds at most one to the three error counters, so together they never
   * exceed the total; and active plus ended is the total plus the handlers between the two begin
   * increments.
   */
  lemma ErrorAccounting(cfg: Config, s: State)
    requires Accounts(cfg, s)
    ensures s.metrics.transport + s.metrics.handshake + s.metrics.proxy == Count(s.handlers, FailedAtAll) <= s.metrics.total
    ensures s.metrics.active + s.metrics.ended == s.metrics.total + Count(s.handlers, BetweenBegins)
  {
    ErrorsAreCounted(cfg, s.handlers);
    BeginsAndEnds(s.handlers);
  }
}
