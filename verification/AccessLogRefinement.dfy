/**
 * The array-backed buffer, driven through any run of the protocol, holds at every moment what the protocol
 * says: the reporter keeps its batch across the records of other goroutines, as it does across a post.
 */
module AccessLogRefinement {
  import opened AccessLog
  import opened AccessLogProtocol
  import opened GoSlice
  import opened LogQueue

  /** The buffer on the heap and the reporter's batch are a state of the protocol. */
  ghost predicate Refines(b: AccessLogBuffer, batch: Slice<Item>, delivered: seq<Item>, s: State)
    reads b, b.items.arr, batch.arr
  {
    && b.Valid() && batch.Valid()
    && (batch.arr == null || batch.arr != b.items.arr)
    && b.Contents() == Items(s.buffered) && batch.Elems() == Items(s.inflight) && delivered == Items(s.delivered)
  }

  /** What one step other than a record makes of the items. */
  lemma StepProjects(s: State, step: Step)
    requires Inv(SOURCE_LIMITS, s) && Enabled(s, step)
    ensures
      var t, q := Apply(SOURCE_LIMITS, s, step), Items(s.buffered);
      match step
      case Record(item) => Items(t.buffered) == Recorded(q, item) && t.inflight == s.inflight && t.delivered == s.delivered
      case Cancel => t.buffered == s.buffered && t.inflight == s.inflight && t.delivered == s.delivered
      case Drain(_) =>
        var k := Take(|q|, MAX_BATCH_SIZE);
        Items(t.inflight) == q[..k] && Items(t.buffered) == q[k..] && t.delivered == s.delivered
      case PostOk => t.buffered == s.buffered && t.inflight == [] && Items(t.delivered) == Items(s.delivered) + Items(s.inflight)
      case PostFail => Items(t.buffered) == Requeue(Items(s.inflight), q, MAX_QUEUE_SIZE) && t.inflight == [] && t.delivered == s.delivered
  {
    hide Recordable, Ascending, Stamped;
    match step
    case Record(_) => RecordProjects(s, step);
    case Cancel =>
    case Drain(_) =>
      var k := Take(|s.buffered|, MAX_BATCH_SIZE);
      assert Items(s.buffered[..k]) == Items(s.buffered)[..k] && Items(s.buffered[k..]) == Items(s.buffered)[k..];
    case PostOk => ItemsConcat(s.delivered, s.inflight);
    case PostFail => ItemsRequeue(s.inflight, s.buffered, MAX_QUEUE_SIZE);
  }

  /** One step of the protocol on the heap. */
  method StepOnHeap(b: AccessLogBuffer, batch: Slice<Item>, delivered: seq<Item>, step: Step, ghost s: State)
    returns (batch': Slice<Item>, delivered': seq<Item>)
    requires Refines(b, batch, delivered, s) && Inv(SOURCE_LIMITS, s) && Enabled(s, step)
    modifies b, b.items.arr
    ensures Refines(b, batch', delivered', Apply(SOURCE_LIMITS, s, step))
    ensures b.items.arr == null || b.items.arr == old(b.items.arr) || fresh(b.items.arr)
  {
    hide Apply, Recorded, Inv, Items;
    StepProjects(s, step);
    batch', delivered' := batch, delivered;
    match step {
      case Record(item) => var _ := b.Record(item);
      case Cancel =>
      case Drain(_) => batch' := b.Drain(MAX_BATCH_SIZE);
      case PostOk =>
        delivered' := delivered + (if batch.arr == null then [] else batch.arr[batch.off..batch.off + batch.len]);
        batch' := Nil();
      case PostFail =>
        b.Restore(batch);
        batch' := Nil();
    }
  }

  /**
   * Any run whatever of the protocol, on the heap: the buffer ends with exactly the queued items, the batch
   * with those in flight, and what successful posts carried away are the delivered ones.
   */
  method Drive(steps: seq<Step>) returns (b: AccessLogBuffer, batch: Slice<Item>, delivered: seq<Item>)
    requires Runs(SOURCE_LIMITS, Init, steps)
    ensures Refines(b, batch, delivered, Exec(SOURCE_LIMITS, Init, steps))
  {
    hide Apply, Enabled, Items, AccessLogProtocol.Inv;
    b := new AccessLogBuffer();
    batch, delivered := Nil(), [];
    ghost var s := Init;
    Begins();
    var i := 0;
    assert steps[0..] == steps;
    while i < |steps|
      invariant 0 <= i <= |steps|
      invariant Inv(SOURCE_LIMITS, s) && Runs(SOURCE_LIMITS, s, steps[i..])
      invariant Exec(SOURCE_LIMITS, s, steps[i..]) == Exec(SOURCE_LIMITS, Init, steps)
      invariant Refines(b, batch, delivered, s)
      invariant fresh(b) && (b.items.arr == null || fresh(b.items.arr))
    {
      assert steps[i..][0] == steps[i] && steps[i..][1..] == steps[i + 1..];
      InvStep(SOURCE_LIMITS, s, steps[i]);
      batch, delivered := StepOnHeap(b, batch, delivered, steps[i], s);
      s := Apply(SOURCE_LIMITS, s, steps[i]);
      i := i + 1;
    }
  }

  lemma Begins()
    ensures Inv(SOURCE_LIMITS, Init) && Items([]) == []
  {
  }
}
