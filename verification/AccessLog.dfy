/**
 * The access-log queue: what its three critical sections do to a sequence (LogQueue), and the
 * slice-backed buffer that implements them on the heap (AccessLog).
 */
module LogQueue {

  /** `Record` on a queue of at most `limit` elements: the element is refused when the queue is full. */
  function Enqueue<T>(q: seq<T>, x: T, limit: nat): seq<T> {
    if |q| >= limit then q else q + [x]
  }

  /** How many elements one `Drain(max)` takes. */
  function Take(n: nat, max: int): (k: nat)
    ensures k <= n && (k > 0 <==> n > 0 && max > 0)
  {
    if max <= 0 then 0 else if n <= max then n else max
  }

  /** `Restore`: the failed batch goes back in front and the newest elements beyond `limit` are cut. */
  function Requeue<T>(batch: seq<T>, q: seq<T>, limit: nat): seq<T> {
    if batch == [] then q
    else if |batch + q| > limit then (batch + q)[..limit] else batch + q
  }

  /** `Record` of several elements one after the other. */
  function EnqueueAll<T>(q: seq<T>, xs: seq<T>, limit: nat): (r: seq<T>)
    ensures q <= r && |r| <= |q| + |xs|
    ensures |q| <= limit ==> |r| <= limit
    decreases |xs|
  {
    if xs == [] then q else EnqueueAll(Enqueue(q, xs[0], limit), xs[1..], limit)
  }

  /** Recording one by one keeps exactly the longest prefix of the arrivals that fits. */
  lemma {:induction false} EnqueueAllIsPrefix<T>(q: seq<T>, xs: seq<T>, limit: nat)
    requires |q| <= limit
    ensures EnqueueAll(q, xs, limit) == q + xs[..if |xs| <= limit - |q| then |xs| else limit - |q|]
    decreases |xs|
  {
    if xs != [] {
      var next := Enqueue(q, xs[0], limit);
      EnqueueAllIsPrefix(next, xs[1..], limit);
      if |q| < limit {
        var room := limit - |next|;
        var k := if |xs[1..]| <= room then |xs[1..]| else room;
        assert next + xs[1..][..k] == q + xs[..k + 1];
      }
    }
  }

  /**
   * The outcome of a failed report on queue `q` whose batch had `k` elements, when `arrivals` came
   * while the post was in flight and left `rest` queued: everything queued before is still there, in
   * front and in order, and what is lost is exactly the overflow, taken from the newest arrivals.
   */
  ghost predicate OnlyArrivalsCut<T>(q: seq<T>, k: nat, arrivals: seq<T>, rest: seq<T>, after: seq<T>, limit: nat)
    requires k <= |q|
  {
    && q <= after
    && |after| <= |q| + |arrivals|
    && after == q + arrivals[..|after| - |q|]
    && |after| == (if k + |rest| <= limit then k + |rest| else limit)
    && k + |rest| - |after| <= k
    && k + |rest| - |after| <= |rest| - |q[k..]|
  }

  lemma {:induction false} FailedReport<T>(q: seq<T>, arrivals: seq<T>, max: int, limit: nat)
    requires |q| <= limit
    ensures
      var k := Take(|q|, max);
      var rest := EnqueueAll(q[k..], arrivals, limit);
      OnlyArrivalsCut(q, k, arrivals, rest, Requeue(q[..k], rest, limit), limit)
  {
    var k := Take(|q|, max);
    EnqueueAllIsPrefix(q[k..], arrivals, limit);
    var rest := EnqueueAll(q[k..], arrivals, limit);
    var n := |rest| - |q[k..]|;
    assert rest == q[k..] + arrivals[..n];
    if k == 0 {
      assert q[k..] == q;
    } else {
      assert q[..k] + rest == q + arrivals[..n];
    }
  }
}

module AccessLog {
  import opened GoSlice
  import opened LogQueue
  import opened Text

  const MAX_QUEUE_SIZE: nat := 10000
  const MAX_BATCH_SIZE: nat := 5000

  datatype Item = Item(
    userId: int, clientId: string, domain: string, host: string,
    uri: string, protocol: string, remoteAddr: string, accessedAt: int)

  /** A record without a domain is refused whatever the queue holds. */
  predicate Recordable(item: Item) {
    TrimSpace(item.domain) != ""
  }

  /** `Record` seen on the queue's contents. */
  function Recorded(q: seq<Item>, item: Item): seq<Item> {
    if Recordable(item) then Enqueue(q, item, MAX_QUEUE_SIZE) else q
  }

  function RecordedAll(q: seq<Item>, items: seq<Item>): (r: seq<Item>)
    ensures q <= r && |r| <= |q| + |Recordables(items)|
    ensures |q| <= MAX_QUEUE_SIZE ==> |r| <= MAX_QUEUE_SIZE
    decreases |items|
  {
    if items == [] then q else RecordedAll(Recorded(q, items[0]), items[1..])
  }

  function Recordables(items: seq<Item>): (r: seq<Item>)
    ensures |r| <= |items|
  {
    if items == [] then []
    else (if Recordable(items[0]) then [items[0]] else []) + Recordables(items[1..])
  }

  lemma {:induction false} RecordedAllEnqueues(q: seq<Item>, items: seq<Item>)
    ensures RecordedAll(q, items) == EnqueueAll(q, Recordables(items), MAX_QUEUE_SIZE)
    decreases |items|
  {
    if items != [] {
      RecordedAllEnqueues(Recorded(q, items[0]), items[1..]);
      var r := Recordables(items);
      if Recordable(items[0]) {
        assert r[1..] == Recordables(items[1..]);
      } else {
        assert r == Recordables(items[1..]);
      }
    }
  }

  lemma {:induction false} RecordedAllAppend(q: seq<Item>, items: seq<Item>, item: Item)
    ensures RecordedAll(q, items + [item]) == Recorded(RecordedAll(q, items), item)
    decreases |items|
  {
    hide Recordable;
    if items == [] {
      assert [item][1..] == [] && items + [item] == [item];
    } else {
      assert (items + [item])[1..] == items[1..] + [item];
      RecordedAllAppend(Recorded(q, items[0]), items[1..], item);
    }
  }

  /** accessLogBuffer. The mutex makes each method one critical section. */
  class AccessLogBuffer {
    var items: Slice<Item>

    ghost predicate Valid()
      reads this
    {
      items.Valid() && items.len <= MAX_QUEUE_SIZE
    }

    ghost function Contents(): seq<Item>
      requires Valid()
      reads this, items.arr
    {
      items.Elems()
    }

    constructor ()
      ensures Valid() && Contents() == [] && items.arr == null
    {
      items := Nil();
    }

    method Record(item: Item) returns (ok: bool)
      requires Valid()
      modifies this, items.arr
      ensures Valid() && Contents() == Recorded(old(Contents()), item)
      ensures ok == (Recordable(item) && |old(Contents())| < MAX_QUEUE_SIZE)
      ensures items.arr == old(items.arr) || fresh(items.arr)
    {
      if TrimSpace(item.domain) == "" { return false; }
      if items.len >= MAX_QUEUE_SIZE { return false; }
      items := Append(items, item);
      return true;
    }

    /**
     * Drain takes the oldest elements. When they all fit it hands out the backing storage itself and
     * forgets it, otherwise it copies them out and shifts the rest down in place; either way the batch
     * and the buffer share no storage afterwards.
     */
    method Drain(max: int) returns (out: Slice<Item>)
      requires Valid()
      modifies this, items.arr
      ensures Valid() && out.Valid()
      ensures var k := Take(|old(Contents())|, max);
              out.Elems() == old(Contents())[..k] && Contents() == old(Contents())[k..]
      ensures out.arr == null || fresh(out.arr) || out.arr == old(items.arr)
      ensures items.arr == null || items.arr == old(items.arr)
      ensures out.arr == null || out.arr != items.arr
    {
      out := Nil();
      if max <= 0 || items.len == 0 { return; }
      if items.len <= max {
        out := items;
        items := Nil();
        return;
      }
      ghost var was := items.Elems();
      out := AppendAll(Nil(), Reslice(items, 0, max));
      assert out.Elems() == was[..max];
      ShiftDown(max);
    }

    /** The overlapping copy of the tail over the head, and the reslice that drops what is left behind it. */
    method ShiftDown(max: nat)
      requires Valid() && 0 < max <= items.len
      modifies this, items.arr
      ensures Valid() && Contents() == old(Contents())[max..] && items.arr == old(items.arr)
    {
      var tail := Reslice(items, max, items.len);
      ghost var was, kept := items.Elems(), tail.Elems();
      var n := Copy(items, tail);
      assert kept[..n] == was[max..];
      items := Reslice(items, 0, items.len - max);
    }

    /** Restore builds fresh storage, so it writes to neither the batch nor the old buffer. */
    method Restore(batch: Slice<Item>)
      requires Valid() && batch.Valid()
      modifies this
      ensures Valid() && Contents() == Requeue(batch.Elems(), old(Contents()), MAX_QUEUE_SIZE)
      ensures batch.len > 0 ==> fresh(items.arr)
      ensures batch.len == 0 ==> items == old(items)
    {
      if batch.len == 0 { return; }
      var restored := Grow(Nil(), batch.len + items.len);
      restored := AppendAll(restored, batch);
      assert restored.Elems() == batch.Elems();
      restored := AppendAll(restored, items);
      assert restored.Elems() == batch.Elems() + old(Contents());
      if restored.len > MAX_QUEUE_SIZE {
        restored := Reslice(restored, 0, MAX_QUEUE_SIZE);
      }
      items := restored;
    }

    /** Records by other goroutines, one critical section each. */
    method RecordEach(arrivals: seq<Item>)
      requires Valid()
      modifies this, items.arr
      ensures Valid() && Contents() == RecordedAll(old(Contents()), arrivals)
      ensures items.arr == old(items.arr) || fresh(items.arr)
    {
      ghost var was := Contents();
      var i := 0;
      while i < |arrivals|
        invariant 0 <= i <= |arrivals| && Valid()
        invariant items.arr == old(items.arr) || fresh(items.arr)
        invariant RecordedAll(Contents(), arrivals[i..]) == RecordedAll(was, arrivals)
      {
        assert arrivals[i..][1..] == arrivals[i + 1..];
        var _ := Record(arrivals[i]);
        i := i + 1;
      }
    }

    /**
     * One reportAccessLogs call. The lock is free while the post is in flight, so `during` is recorded
     * by other goroutines between the drain and the outcome; `posted` is the batch as the request reads
     * it after those records.
     */
    method ReportAccessLogs(during: seq<Item>, postSucceeds: bool) returns (posted: seq<Item>)
      requires Valid()
      modifies this, items.arr
      ensures Valid()
      ensures posted == old(Contents())[..Take(|old(Contents())|, MAX_BATCH_SIZE)]
      ensures var rest := RecordedAll(old(Contents())[|posted|..], during);
              Contents() == if postSucceeds then rest else Requeue(posted, rest, MAX_QUEUE_SIZE)
    {
      var batch := Drain(MAX_BATCH_SIZE);
      ghost var drained := batch.Elems();
      RecordEach(during);
      assert batch.Elems() == drained;
      posted := if batch.arr == null then [] else batch.arr[batch.off..batch.off + batch.len];
      if batch.len > 0 && !postSucceeds {
        Restore(batch);
      }
    }
  }

  /** A caller of ReportAccessLogs whose post fails loses at most a batch, and only newer records. */
  lemma FailedReportKeepsOlder(q: seq<Item>, during: seq<Item>)
    requires |q| <= MAX_QUEUE_SIZE
    ensures
      var k := Take(|q|, MAX_BATCH_SIZE);
      var rest := RecordedAll(q[k..], during);
      k <= MAX_BATCH_SIZE &&
      OnlyArrivalsCut(q, k, Recordables(during), rest, Requeue(q[..k], rest, MAX_QUEUE_SIZE), MAX_QUEUE_SIZE)
  {
    RecordedAllEnqueues(q[Take(|q|, MAX_BATCH_SIZE)..], during);
    FailedReport(q, Recordables(during), MAX_BATCH_SIZE, MAX_QUEUE_SIZE);
  }

  /** A full queue is two batches: two reports whose posts succeed always empty it, and one does up to 5000 records. */
  lemma TwoReportsEmpty(q: seq<Item>)
    requires |q| <= MAX_QUEUE_SIZE
    ensures
      var once := q[Take(|q|, MAX_BATCH_SIZE)..];
      && |q| <= 10000 && |once| <= 5000 && (once == [] <==> |q| <= 5000)
      && once[Take(|once|, MAX_BATCH_SIZE)..] == []
  {
  }

  /** And the queue does hold ten thousand. */
  lemma RoomForTenThousand(q: seq<Item>, item: Item)
    requires Recordable(item)
    ensures Recorded(q, item) == if |q| < 10000 then q + [item] else q
  {
    hide Recordable;
  }
}
