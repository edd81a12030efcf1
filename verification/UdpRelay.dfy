/**
 * One UDP associate session: the worker that carries datagrams out and logs each new target once, and
 * the worker that carries datagrams back.
 */
module UdpRelay {
  import opened AccessLog
  import opened AccessLogProtocol
  import opened Pumps
  import opened Text
  import opened Wrappers

  /** One turn of the outgoing worker: what the read, the resolution and the write came to. */
  datatype UpEvent =
    | ReadFails(e: Failure)
    | Datagram(target: string, item: Item, resolveError: Option<Failure>, written: nat, writeError: Option<Failure>)

  predicate Passes(e: UpEvent) {
    e.Datagram? && e.resolveError.None? && e.writeError.None?
  }

  /** The datagrams written successfully, in order. */
  function Written(events: seq<UpEvent>): (r: seq<UpEvent>)
    ensures forall e <- r :: Passes(e)
  {
    if events == [] || !Passes(events[0]) then [] else [events[0]] + Written(events[1..])
  }

  function UpTotal(events: seq<UpEvent>): nat {
    if events == [] || events[0].ReadFails? || events[0].resolveError.Some? then 0
    else events[0].written + if events[0].writeError.Some? then 0 else UpTotal(events[1..])
  }

  /** What the worker sends when it ends; nothing while it is still running. Resolution errors are not normalised. */
  function UpOutcome(events: seq<UpEvent>): Option<Option<Failure>> {
    if events == [] then None
    else
      match events[0]
      case ReadFails(e) => Some(Normalize(Some(e)))
      case Datagram(_, _, resolveError, _, writeError) =>
        if resolveError.Some? then Some(resolveError)
        else if writeError.Some? then Some(Normalize(writeError))
        else UpOutcome(events[1..])
  }

  /** How many turns the worker takes: it ends with the first one that does not pass. */
  function Turns(events: seq<UpEvent>): (n: nat)
    ensures n <= |events|
  {
    if events == [] then 0 else if Passes(events[0]) then 1 + Turns(events[1..]) else 1
  }

  /** What the turn at position i contributes to the summaries. */
  lemma Turn(events: seq<UpEvent>, i: nat)
    requires i <= |events|
    ensures i == |events| ==> Turns(events[i..]) == 0 && Written(events[i..]) == [] && UpTotal(events[i..]) == 0 && UpOutcome(events[i..]) == None
    ensures
      i < |events| ==>
      var e, now, rest := events[i], events[i..], events[i + 1..];
      && Turns(now) == 1 + (if Passes(e) then Turns(rest) else 0)
      && Written(now) == (if Passes(e) then [e] + Written(rest) else [])
      && UpTotal(now) == (if e.ReadFails? || e.resolveError.Some? then 0
                          else e.written + if e.writeError.Some? then 0 else UpTotal(rest))
      && (Passes(e) ==> UpOutcome(now) == UpOutcome(rest))
      && (e.ReadFails? ==> UpOutcome(now) == Some(Normalize(Some(e.e))))
      && (e.Datagram? && e.resolveError.Some? ==> UpOutcome(now) == Some(e.resolveError))
      && (e.Datagram? && e.resolveError.None? && e.writeError.Some? ==> UpOutcome(now) == Some(Normalize(e.writeError)))
  {
    if i < |events| { assert events[i..][1..] == events[i + 1..]; }
  }

  /** The error with which a turn ends the outgoing worker: a failed resolution always, a read or write if it is no mere close. */
  function ErrorOfTurn(e: UpEvent): Option<Failure> {
    match e
    case ReadFails(Other(code)) => Some(Other(code))
    case Datagram(_, _, Some(failure), _, _) => Some(failure)
    case Datagram(_, _, None, _, Some(Other(code))) => Some(Other(code))
    case _ => None
  }

  /** The worker goes on exactly while turns pass, and ends with the error of the first that does not. */
  lemma {:induction false} UpOutcomeIs(events: seq<UpEvent>)
    ensures UpOutcome(events) == None <==> forall e <- events :: Passes(e)
    ensures UpOutcome(events).Some? ==>
              && Turns(events) > 0 && (forall e <- events[..Turns(events) - 1] :: Passes(e)) && !Passes(events[Turns(events) - 1])
              && UpOutcome(events) == Some(ErrorOfTurn(events[Turns(events) - 1]))
  {
    if events != [] && Passes(events[0]) {
      var rest := events[1..];
      UpOutcomeIs(rest);
      assert forall e :: e in events <==> e == events[0] || e in rest;
      if UpOutcome(rest).Some? {
        var n := Turns(rest);
        assert events[..n] == [events[0]] + rest[..n - 1] && events[n] == rest[n - 1];
      }
    } else if events != [] {
      assert events[0] in events && events[..0] == [];
    }
  }

  function Key(lower: char -> char, e: UpEvent): string
    requires e.Datagram?
  {
    Lower(lower, e.target)
  }

  function KeySet(lower: char -> char, es: seq<UpEvent>): set<string>
    requires forall e <- es :: e.Datagram?
  {
    set e | e in es :: Key(lower, e)
  }

  function LogItems(es: seq<UpEvent>): (r: seq<Item>)
    requires forall e <- es :: e.Datagram?
    ensures |r| == |es|
  {
    seq(|es|, i requires 0 <= i < |es| => es[i].item)
  }

  /** The datagrams whose key did not occur before them. */
  function FirstOccurrences(lower: char -> char, es: seq<UpEvent>): (r: seq<UpEvent>)
    requires forall e <- es :: e.Datagram?
    ensures forall e <- r :: e.Datagram?
  {
    if es == [] then []
    else
      var init, last := es[..|es| - 1], es[|es| - 1];
      FirstOccurrences(lower, init) + if Key(lower, last) in KeySet(lower, init) then [] else [last]
  }

  predicate IsFirst(lower: char -> char, es: seq<UpEvent>, i: nat)
    requires i < |es| && forall e <- es :: e.Datagram?
  {
    forall j :: 0 <= j < i ==> Key(lower, es[j]) != Key(lower, es[i])
  }

  /** The last datagram is a first occurrence exactly when its key is new. */
  lemma LastIsFirst(lower: char -> char, es: seq<UpEvent>)
    requires es != [] && forall e <- es :: e.Datagram?
    ensures IsFirst(lower, es, |es| - 1) <==> Key(lower, es[|es| - 1]) !in KeySet(lower, es[..|es| - 1])
  {
    var n := |es| - 1;
    var init := es[..n];
    if Key(lower, es[n]) in KeySet(lower, init) {
      var e :| e in init && Key(lower, e) == Key(lower, es[n]);
      var j :| 0 <= j < n && init[j] == e;
      assert es[j] == e;
    } else {
      forall j | 0 <= j < n ensures Key(lower, es[j]) != Key(lower, es[n]) {
        assert es[j] == init[j] && init[j] in init;
      }
    }
  }

  lemma IsFirstInPrefix(lower: char -> char, es: seq<UpEvent>, i: nat)
    requires i < |es| - 1 && forall e <- es :: e.Datagram?
    ensures IsFirst(lower, es[..|es| - 1], i) == IsFirst(lower, es, i)
  {
    assert forall j :: 0 <= j <= i ==> es[j] == es[..|es| - 1][j];
  }

  /**
   * What FirstOccurrences selects, independently of how it is computed: exactly the positions whose key
   * no earlier position has, in order.
   */
  lemma {:induction false} FirstOccurrencesSelect(lower: char -> char, es: seq<UpEvent>) returns (at: seq<nat>)
    requires forall e <- es :: e.Datagram?
    ensures SelectedAt(FirstOccurrences(lower, es), es, at)
    ensures forall i <- at :: i < |es|
    ensures forall i :: 0 <= i < |es| ==> (i in at <==> IsFirst(lower, es, i))
  {
    hide Key, KeySet, IsFirst, SelectedAt;
    at := [];
    if es == [] {
      assert SelectedAt(FirstOccurrences(lower, es), es, at) by { SelectedNothing(es); }
    } else {
      var n := |es| - 1;
      var init := es[..n];
      assert es == init + [es[n]];
      var before := FirstOccurrencesSelect(lower, init);
      LastIsFirst(lower, es);
      SelectedGrows(FirstOccurrences(lower, init), init, before, es[n]);
      at := if IsFirst(lower, es, n) then before + [n] else before;
      forall i | 0 <= i < n ensures i in at <==> IsFirst(lower, es, i) {
        IsFirstInPrefix(lower, es, i);
        assert i in at <==> i in before;
      }
      assert n in at <==> IsFirst(lower, es, n);
      if IsFirst(lower, es, n) {
        assert FirstOccurrences(lower, es) == FirstOccurrences(lower, init) + [es[n]];
      } else {
        assert FirstOccurrences(lower, es) == FirstOccurrences(lower, init);
      }
    }
  }

  lemma SelectedNothing<T>(b: seq<T>)
    ensures SelectedAt([], b, [])
  {
  }

  lemma SelectedGrows<T>(a: seq<T>, b: seq<T>, at: seq<nat>, x: T)
    requires SelectedAt(a, b, at)
    ensures SelectedAt(a, b + [x], at) && SelectedAt(a + [x], b + [x], at + [|b|])
  {
  }

  /** Every key is logged, and no key twice. */
  lemma {:induction false} EachKeyOnce(lower: char -> char, es: seq<UpEvent>)
    requires forall e <- es :: e.Datagram?
    ensures KeySet(lower, FirstOccurrences(lower, es)) == KeySet(lower, es)
    ensures var f := FirstOccurrences(lower, es);
            forall i, j :: 0 <= i < j < |f| ==> Key(lower, f[i]) != Key(lower, f[j])
  {
    if es != [] {
      var n := |es| - 1;
      var init, last := es[..n], es[n];
      EachKeyOnce(lower, init);
      KeySetGrows(lower, init, last);
      assert es == init + [last];
      KeySetGrows(lower, FirstOccurrences(lower, init), last);
      var f := FirstOccurrences(lower, init);
      forall i | 0 <= i < |f| ensures Key(lower, f[i]) in KeySet(lower, init) {
        assert Key(lower, f[i]) in KeySet(lower, f);
      }
    }
  }

  lemma KeySetGrows(lower: char -> char, es: seq<UpEvent>, e: UpEvent)
    requires e.Datagram? && forall d <- es :: d.Datagram?
    ensures KeySet(lower, es + [e]) == KeySet(lower, es) + {Key(lower, e)}
  {
    forall k | k in KeySet(lower, es) + {Key(lower, e)} ensures k in KeySet(lower, es + [e]) {
      if k == Key(lower, e) { assert e in es + [e]; } else {
        var d :| d in es && Key(lower, d) == k;
        assert d in es + [e];
      }
    }
  }

  lemma FirstOccurrencesGrow(lower: char -> char, es: seq<UpEvent>, e: UpEvent)
    requires e.Datagram? && forall d <- es :: d.Datagram?
    ensures KeySet(lower, es + [e]) == KeySet(lower, es) + {Lower(lower, e.target)}
    ensures LogItems(FirstOccurrences(lower, es + [e])) ==
            LogItems(FirstOccurrences(lower, es)) + (if Lower(lower, e.target) in KeySet(lower, es) then [] else [e.item])
  {
    hide Lower, KeySet;
    KeySetGrows(lower, es, e);
    var all := es + [e];
    assert all[..|es|] == es && all[|es|] == e;
    var firsts := FirstOccurrences(lower, es);
    assert LogItems(firsts + [e]) == LogItems(firsts) + [e.item];
  }

  /** `seen` and `attempted` are what the datagrams in `done` leave behind. */
  ghost predicate Logs(lower: char -> char, done: seq<UpEvent>, seen: set<string>, attempted: seq<Item>)
    requires forall e <- done :: e.Datagram?
  {
    seen == KeySet(lower, done) && attempted == LogItems(FirstOccurrences(lower, done))
  }

  // ----- A shared queue -----

  /** A record attempted on the shared queue, by this session or by another connection. */
  datatype Attempt = Attempt(own: bool, item: Item)

  function AttemptedItems(log: seq<Attempt>): seq<Item> {
    if log == [] then [] else AttemptedItems(log[..|log| - 1]) + [log[|log| - 1].item]
  }

  /** The attempts of this session, or those of the others. */
  function By(own: bool, log: seq<Attempt>): seq<Item> {
    if log == [] then []
    else By(own, log[..|log| - 1]) + if log[|log| - 1].own == own then [log[|log| - 1].item] else []
  }

  function Flat(lists: seq<seq<Item>>): seq<Item> {
    if lists == [] then [] else Flat(lists[..|lists| - 1]) + lists[|lists| - 1]
  }

  function Foreign(items: seq<Item>): seq<Attempt> {
    seq(|items|, i requires 0 <= i < |items| => Attempt(false, items[i]))
  }

  lemma OneMoreAttempt(log: seq<Attempt>, a: Attempt)
    ensures AttemptedItems(log + [a]) == AttemptedItems(log) + [a.item]
    ensures By(a.own, log + [a]) == By(a.own, log) + [a.item] && By(!a.own, log + [a]) == By(!a.own, log)
  {
    assert (log + [a])[..|log|] == log;
  }

  lemma {:induction false} ForeignAttempts(log: seq<Attempt>, items: seq<Item>)
    ensures AttemptedItems(log + Foreign(items)) == AttemptedItems(log) + items
    ensures By(true, log + Foreign(items)) == By(true, log) && By(false, log + Foreign(items)) == By(false, log) + items
  {
    if items == [] {
      assert log + Foreign(items) == log;
    } else {
      var init, last := items[..|items| - 1], items[|items| - 1];
      assert log + Foreign(items) == (log + Foreign(init)) + [Attempt(false, last)];
      assert items == init + [last];
      ForeignAttempts(log, init);
      OneMoreAttempt(log + Foreign(init), Attempt(false, last));
    }
  }

  lemma {:induction false} RecordedAllConcat(q: seq<Item>, a: seq<Item>, b: seq<Item>)
    ensures RecordedAll(q, a + b) == RecordedAll(RecordedAll(q, a), b)
  {
    if b == [] {
      assert a + b == a;
    } else {
      var init, last := b[..|b| - 1], b[|b| - 1];
      assert a + b == (a + init) + [last] && b == init + [last];
      RecordedAllConcat(q, a, init);
      RecordedAllAppend(q, a + init, last);
      RecordedAllAppend(RecordedAll(q, a), init, last);
    }
  }

  lemma FlatNothing(lists: seq<seq<Item>>)
    ensures Flat(lists[..0]) == []
  {
  }

  lemma FlatStep(lists: seq<seq<Item>>, i: nat)
    requires i < |lists|
    ensures Flat(lists[..i + 1]) == Flat(lists[..i]) + lists[i]
  {
    assert lists[..i + 1][..i] == lists[..i];
  }

  lemma NothingLogged(lower: char -> char, done: seq<UpEvent>, q: seq<Item>)
    requires done == []
    ensures Logs(lower, done, {}, []) && RecordedAll(q, []) == q
    ensures AttemptedItems([]) == [] && By(true, []) == [] && By(false, []) == []
  {
  }

  // ----- The way back -----

  /** One turn of the returning worker; a packet from an address that is no UDP address is skipped. */
  datatype DownEvent =
    | ReceiveFails(e: Failure)
    | Packet(size: nat, addressOk: bool, writeError: Option<Failure>)

  /** Bytes of the packets the client received. */
  function Delivered(events: seq<DownEvent>): nat {
    if events == [] || events[0].ReceiveFails? then 0
    else if !events[0].addressOk then Delivered(events[1..])
    else if events[0].writeError.Some? then 0
    else events[0].size + Delivered(events[1..])
  }

  /** The size of the packet whose write ended the worker, 0 if none did. */
  function LostInWrite(events: seq<DownEvent>): nat {
    if events == [] || events[0].ReceiveFails? then 0
    else if !events[0].addressOk then LostInWrite(events[1..])
    else if events[0].writeError.Some? then events[0].size
    else LostInWrite(events[1..])
  }

  function DownOutcome(events: seq<DownEvent>): Option<Option<Failure>> {
    if events == [] then None
    else
      match events[0]
      case ReceiveFails(e) => Some(Normalize(Some(e)))
      case Packet(_, addressOk, writeError) =>
        if addressOk && writeError.Some? then Some(Normalize(writeError)) else DownOutcome(events[1..])
  }

  /** A turn that leaves the returning worker in its loop: a packet skipped, or written. */
  predicate Continues(e: DownEvent) { e.Packet? && (e.addressOk ==> e.writeError.None?) }

  /** The returning worker goes on exactly while turns continue; a close is no error there either. */
  lemma {:induction false} DownOutcomeIs(events: seq<DownEvent>, n: nat)
    requires n <= |events| && (forall e <- events[..n] :: Continues(e)) && (n < |events| ==> !Continues(events[n]))
    ensures DownOutcome(events) ==
            if n == |events| then None
            else
              match events[n]
              case ReceiveFails(Other(code)) => Some(Some(Other(code)))
              case Packet(_, _, Some(Other(code))) => Some(Some(Other(code)))
              case _ => Some(None)
  {
    if n > 0 {
      assert events[..n][0] in events[..n] && Continues(events[0]);
      assert events[0] == events[..n][0] && events[1..][..n - 1] == events[..n][1..];
      DownOutcomeIs(events[1..], n - 1);
    }
  }

  /** `logging` says whether the relay has an access buffer at all (r.access != nil). */
  class UdpSession {
    const lower: char -> char
    const logging: bool
    const access: AccessLogBuffer
    var seen: set<string>
    var upBytes: nat
    var downBytes: nat
    ghost var attempts: seq<Attempt>   // the records attempted on the access log since the start, in order

    constructor (lower: char -> char, logging: bool, access: AccessLogBuffer, upBytes: nat, downBytes: nat)
      ensures this.lower == lower && this.logging == logging && this.access == access
      ensures seen == {} && attempts == [] && this.upBytes == upBytes && this.downBytes == downBytes
    {
      this.lower, this.logging, this.access := lower, logging, access;
      this.upBytes, this.downBytes := upBytes, downBytes;
      seen, attempts := {}, [];
    }

    /** recordUDPAccess: marks the key before recording, so a record the queue refuses is not tried again. */
    method RecordUDPAccess(target: string, item: Item)
      requires access.Valid()
      modifies `seen, `attempts, access, access.items.arr
      ensures access.Valid() && (access.items.arr == old(access.items.arr) || fresh(access.items.arr))
      ensures
        if logging && Lower(lower, target) !in old(seen) then
          && seen == old(seen) + {Lower(lower, target)}
          && attempts == old(attempts) + [Attempt(true, item)]
          && access.Contents() == Recorded(old(access.Contents()), item)
        else
          && seen == old(seen) && attempts == old(attempts)
          && access.Contents() == old(access.Contents())
    {
      if !logging { return; }
      var key := Lower(lower, target);
      if key in seen { return; }
      seen := seen + {key};
      attempts := attempts + [Attempt(true, item)];
      var _ := access.Record(item);
    }

    /**
     * After the successfully written datagrams `done`, on a queue that held `q` and that other connections
     * meanwhile recorded `others` on: `seen` is the set of the datagrams' keys, this session's attempts are
     * their first occurrences in order, the other attempts are `others` in order, and the queue is what all
     * of them, as they interleaved, make of `q`. Without an access buffer nothing is marked or recorded.
     */
    ghost predicate Logged(done: seq<UpEvent>, others: seq<Item>, q: seq<Item>)
      requires forall e <- done :: e.Datagram?
      reads `seen, `attempts, access, access.items.arr
    {
      && access.Valid() && access.Contents() == RecordedAll(q, AttemptedItems(attempts)) && By(false, attempts) == others
      && if logging then Logs(lower, done, seen, By(true, attempts)) else seen == {} && By(true, attempts) == []
    }

    method LogDatagram(e: UpEvent, ghost done: seq<UpEvent>, ghost others: seq<Item>, ghost q: seq<Item>)
      requires e.Datagram? && (forall d <- done :: d.Datagram?) && Logged(done, others, q)
      modifies `seen, `attempts, access, access.items.arr
      ensures (forall d <- done + [e] :: d.Datagram?) && Logged(done + [e], others, q)
      ensures access.items.arr == old(access.items.arr) || fresh(access.items.arr)
    {
      hide FirstOccurrences, KeySet, LogItems, RecordedAll, Recorded, Lower, AttemptedItems, By;
      FirstOccurrencesGrow(lower, done, e);
      RecordedAllAppend(q, AttemptedItems(attempts), e.item);
      OneMoreAttempt(attempts, Attempt(true, e.item));
      RecordUDPAccess(e.target, e.item);
    }

    /** Other connections record on the same queue. */
    method OthersRecord(items: seq<Item>, ghost done: seq<UpEvent>, ghost others: seq<Item>, ghost q: seq<Item>)
      requires (forall d <- done :: d.Datagram?) && Logged(done, others, q)
      modifies `attempts, access, access.items.arr
      ensures Logged(done, others + items, q)
      ensures access.items.arr == old(access.items.arr) || fresh(access.items.arr)
    {
      hide FirstOccurrences, KeySet, LogItems, RecordedAll, AttemptedItems, By;
      ForeignAttempts(attempts, items);
      RecordedAllConcat(q, AttemptedItems(attempts), items);
      attempts := attempts + Foreign(items);
      access.RecordEach(items);
    }

    lemma LoggedAtStart(done: seq<UpEvent>, q: seq<Item>)
      requires done == [] && seen == {} && attempts == [] && access.Valid() && q == access.Contents()
      ensures Logged(done, [], q)
    {
      NothingLogged(lower, done, q);
    }

    /**
     * The outgoing worker over the turns it has taken, from the start of the session; before each turn others
     * record. The turns may end anywhere, so this holds at every moment of a session, also after the receiver
     * left through its context while the worker was still busy.
     */
    method PumpUp(events: seq<UpEvent>, arrivals: seq<seq<Item>>) returns (outcome: Option<Option<Failure>>)
      requires seen == {} && attempts == [] && access.Valid() && |arrivals| == |events|
      modifies this, access, access.items.arr
      ensures outcome == UpOutcome(events)
      ensures upBytes == old(upBytes) + UpTotal(events) && downBytes == old(downBytes)
      ensures Logged(Written(events), Flat(arrivals[..Turns(events)]), old(access.Contents()))
    {
      hide Written, UpTotal, UpOutcome, Turns, Normalize, Logged, Flat, RecordedAll, FirstOccurrences, KeySet, LogItems, AttemptedItems, By, Lower;
      ghost var q := access.Contents();
      ghost var done: seq<UpEvent> := [];
      LoggedAtStart(done, q);
      FlatNothing(arrivals);
      var i := 0;
      while i < |events|
        invariant 0 <= i <= |events|
        invariant forall e <- done :: e.Datagram?
        invariant Logged(done, Flat(arrivals[..i]), q)
        invariant access.items.arr == old(access.items.arr) || fresh(access.items.arr)
        invariant Written(events) == done + Written(events[i..]) && Turns(events) == i + Turns(events[i..])
        invariant old(upBytes) + UpTotal(events) == upBytes + UpTotal(events[i..]) && downBytes == old(downBytes)
        invariant UpOutcome(events) == UpOutcome(events[i..])
      {
        var e := events[i];
        Turn(events, i);
        FlatStep(arrivals, i);
        assert !Passes(e) ==> Written(events) == done;
        OthersRecord(arrivals[i], done, Flat(arrivals[..i]), q);
        if e.ReadFails? { return Some(Normalize(Some(e.e))); }
        if e.resolveError.Some? { return Some(e.resolveError); }
        if e.written > 0 {
          upBytes := upBytes + e.written;
        }
        if e.writeError.Some? { return Some(Normalize(e.writeError)); }
        LogDatagram(e, done, Flat(arrivals[..i + 1]), q);
        done := done + [e];
        i := i + 1;
      }
      Turn(events, i);
      assert Written(events) == done;
      outcome := None;
    }

    /** The returning worker over the turns it has taken: what it counts is what the client received plus the packet whose write failed. */
    method PumpDown(events: seq<DownEvent>) returns (outcome: Option<Option<Failure>>)
      modifies this
      ensures outcome == DownOutcome(events)
      ensures downBytes == old(downBytes) + Delivered(events) + LostInWrite(events)
      ensures upBytes == old(upBytes) && seen == old(seen) && attempts == old(attempts)
    {
      var i := 0;
      while i < |events|
        invariant 0 <= i <= |events|
        invariant old(downBytes) + Delivered(events) + LostInWrite(events) ==
                  downBytes + Delivered(events[i..]) + LostInWrite(events[i..])
        invariant DownOutcome(events) == DownOutcome(events[i..])
        invariant upBytes == old(upBytes) && seen == old(seen) && attempts == old(attempts)
      {
        var e := events[i];
        assert events[i..][0] == e && events[i..][1..] == events[i + 1..];
        i := i + 1;
        if e.ReceiveFails? { return Some(Normalize(Some(e.e))); }
        if !e.addressOk { continue; }
        if e.size > 0 {
          downBytes := downBytes + e.size;
        }
        if e.writeError.Some? { return Some(Normalize(e.writeError)); }
      }
      outcome := None;
    }
  }
}
