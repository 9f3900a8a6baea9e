/** The bounded queues between pipeline stages. Every stage boundary of the
    source is a `sync_channel(1)`: one slot. Producers call `try_send`, which
    never blocks and discards the new item when the slot is taken; the
    consumer's `recv` takes the slot's item (and would wait while it is empty). */
module Channel {
  import opened Types

  /** The single slot of a capacity-1 channel. */
  class SyncSlot<T> {
    var slot: Option<T>

    constructor ()
      ensures slot == None
    {
      slot := None;
    }

    /** `try_send`: the item is admitted exactly when the slot is empty;
        otherwise it is discarded and the slot keeps its item. */
    method TrySend(x: T) returns (sent: bool)
      modifies this
      ensures (slot, sent) == Offer(old(slot), x)
    {
      sent := slot.None?;
      if sent {
        slot := Some(x);
      }
    }

    /** One `recv`: takes the slot's item. `None` stands for the case in which
        the blocking consumer would still be waiting. */
    method Recv() returns (item: Option<T>)
      modifies this
      ensures item == old(slot) && slot == None
    {
      item := slot;
      slot := None;
    }
  }

  /** The effect of one `try_send` on the slot: the new slot and whether the
      item was admitted. */
  function Offer<T>(slot: Option<T>, x: T): (r: (Option<T>, bool))
    ensures r.0.Some?
    ensures r.1 <==> slot.None?
    ensures r.1 ==> r.0 == Some(x)
    ensures !r.1 ==> r.0 == slot
  {
    if slot.None? then (Some(x), true) else (slot, false)
  }

  /** A sequence of operations on one channel, as seen from the slot. */
  datatype Op<T> = Send(item: T) | Receive

  /** The slot after a run, what the consumer got, and what was discarded. */
  datatype Trace<T> = Trace(slot: Option<T>, delivered: seq<T>, dropped: seq<T>)

  /** The effect of one operation on a trace. */
  function Apply<T>(t: Trace<T>, op: Op<T>): Trace<T>
  {
    match op
    case Send(x) =>
      var (s', admitted) := Offer(t.slot, x);
      if admitted then Trace(s', t.delivered, t.dropped) else Trace(s', t.delivered, t.dropped + [x])
    case Receive =>
      if t.slot.Some? then Trace(None, t.delivered + [t.slot.value], t.dropped) else t
  }

  function Replay<T>(slot: Option<T>, ops: seq<Op<T>>): Trace<T>
    decreases |ops|
  {
    if ops == [] then Trace(slot, [], []) else Apply(Replay(slot, ops[..|ops| - 1]), ops[|ops| - 1])
  }

  /** The items produced during a run, in order. */
  function Produced<T>(ops: seq<Op<T>>): (r: seq<T>)
    ensures |r| <= |ops|
    decreases |ops|
  {
    if ops == [] then []
    else Produced(ops[..|ops| - 1]) + (if ops[|ops| - 1].Send? then [ops[|ops| - 1].item] else [])
  }

  /** The number of receives in a run. */
  function Receives<T>(ops: seq<Op<T>>): nat
    decreases |ops|
  {
    if ops == [] then 0
    else Receives(ops[..|ops| - 1]) + (if ops[|ops| - 1].Receive? then 1 else 0)
  }

  /** The contents of the slot as a multiset: at most one item. */
  function Held<T>(slot: Option<T>): (m: multiset<T>)
    ensures |m| <= 1
  {
    if slot.Some? then multiset{slot.value} else multiset{}
  }

  /** One operation moves items between the slot, the consumer and the
      discarded ones, and adds exactly the item it sends. */
  lemma ApplyConserves<T>(t: Trace<T>, op: Op<T>)
    ensures var t' := Apply(t, op);
      multiset(t'.delivered) + multiset(t'.dropped) + Held(t'.slot)
      == multiset(t.delivered) + multiset(t.dropped) + Held(t.slot) + (if op.Send? then multiset{op.item} else multiset{})
  {
    var t' := Apply(t, op);
    match op
    case Send(x) =>
      if t.slot.None? {
        assert t' == Trace(Some(x), t.delivered, t.dropped);
      } else {
        assert t' == Trace(t.slot, t.delivered, t.dropped + [x]);
        assert multiset(t'.dropped) == multiset(t.dropped) + multiset{x};
      }
    case Receive =>
      if t.slot.Some? {
        assert t' == Trace(None, t.delivered + [t.slot.value], t.dropped);
        assert multiset(t'.delivered) == multiset(t.delivered) + multiset{t.slot.value};
      }
  }

  /** Load shedding loses nothing silently: every item produced (and the one
      the slot held at the start) is, after any run, exactly one of delivered
      to the consumer, discarded by a full slot, or still in the slot. */
  lemma {:induction false} ReplayConserves<T>(slot: Option<T>, ops: seq<Op<T>>)
    ensures var t := Replay(slot, ops);
      multiset(Produced(ops)) + Held(slot)
      == multiset(t.delivered) + multiset(t.dropped) + Held(t.slot)
    decreases |ops|
  {
    if ops != [] {
      var init := ops[..|ops| - 1];
      var op := ops[|ops| - 1];
      ReplayConserves(slot, init);
      ApplyConserves(Replay(slot, init), op);
      assert Produced(ops) == Produced(init) + (if op.Send? then [op.item] else []);
      assert multiset(Produced(ops)) == multiset(Produced(init)) + (if op.Send? then multiset{op.item} else multiset{});
    }
  }

  /** The consumer gets at most one item per receive, and never more items
      than were produced (plus the one initially held). */
  lemma {:induction false} DeliveredBounded<T>(slot: Option<T>, ops: seq<Op<T>>)
    ensures var t := Replay(slot, ops);
      |t.delivered| <= Receives(ops) &&
      |t.delivered| + |t.dropped| + |Held(t.slot)| == |Produced(ops)| + |Held(slot)|
    decreases |ops|
  {
    if ops != [] {
      DeliveredBounded(slot, ops[..|ops| - 1]);
    }
  }

  /** Under sustained backpressure (no receive at all), the slot keeps the
      first item it admitted and every later item is discarded. */
  lemma {:induction false} NoReceiveKeepsOldest<T>(ops: seq<Op<T>>)
    requires forall i :: 0 <= i < |ops| ==> ops[i].Send?
    requires |ops| > 0
    ensures var t := Replay(None, ops);
      t.slot == Some(ops[0].item) && t.delivered == [] &&
      t.dropped == Produced(ops)[1..]
    decreases |ops|
  {
    if |ops| > 1 {
      NoReceiveKeepsOldest(ops[..|ops| - 1]);
      assert ops[..|ops| - 1][0] == ops[0];
    }
  }
}
