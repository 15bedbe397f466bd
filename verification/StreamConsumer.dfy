/** A consumer group on the event stream: reading new entries, handing them to every handler, acknowledging. */
module StreamConsumer {
  import opened Publishing

  /** Where a delivered entry stands: read and waiting, failed to parse, handled but not acknowledged, acknowledged. */
  datatype EntryState = Waiting(consumer: string) | Rejected(consumer: string) | Unacked(consumer: string)
                      | Acked(consumer: string)

  datatype HandlerCall = HandlerCall(consumer: string, handler: nat, entry: nat)

  /** The group's view of the stream: entries[..|delivered|] have been read by some consumer. */
  datatype Group = Group(delivered: seq<EntryState>, calls: seq<HandlerCall>)

  /** Reading assigns up to count entries never read before to the consumer. */
  function Read(g: Group, entries: nat, consumer: string, count: nat): Group
    requires |g.delivered| <= entries
  {
    var unread := entries - |g.delivered|;
    var n: nat := if count < unread then count else unread;
    g.(delivered := g.delivered + seq(n, i => Waiting(consumer)))
  }

  function CallAll(consumer: string, handlers: nat, entry: nat): seq<HandlerCall> {
    seq(handlers, (h: nat) => HandlerCall(consumer, h, entry))
  }

  /** Processing one entry: every handler is called once, then the entry is acknowledged if the server agrees. */
  function Process(g: Group, stream: seq<Entry>, handlers: nat, entry: nat, ackOk: bool): Group
    requires entry < |g.delivered| <= |stream|
  {
    var consumer := g.delivered[entry].consumer;
    if stream[entry] == Unparsable then g.(delivered := g.delivered[entry := Rejected(consumer)])
    else
      Group(g.delivered[entry := if ackOk then Acked(consumer) else Unacked(consumer)],
        g.calls + CallAll(consumer, handlers, entry))
  }

  /** The group after one consumer has processed the entries from first up to end in order. */
  function ProcessRange(g: Group, stream: seq<Entry>, handlers: nat, first: nat, end: nat, ack: nat -> bool): (r: Group)
    requires first <= end <= |g.delivered| <= |stream|
    ensures |r.delivered| == |g.delivered|
    decreases end
  {
    if first == end then g
    else Process(ProcessRange(g, stream, handlers, first, end - 1, ack), stream, handlers, end - 1, ack(end - 1))
  }

  /** A read appends entries as waiting for the consumer: as many as asked for, or all that are left. */
  lemma ReadTakesTheNext(g: Group, entries: nat, consumer: string, count: nat)
    requires |g.delivered| <= entries
    ensures var r := Read(g, entries, consumer, count);
            && |g.delivered| <= |r.delivered| <= entries && |r.delivered| <= |g.delivered| + count
            && (|r.delivered| == entries || |r.delivered| == |g.delivered| + count)
            && r.delivered[..|g.delivered|] == g.delivered && r.calls == g.calls
            && forall i :: |g.delivered| <= i < |r.delivered| ==> r.delivered[i] == Waiting(consumer)
  {
  }

  /** Where a processed entry ends up: rejected when it does not parse, and acknowledged when the server agrees. */
  function Outcome(entry: Entry, consumer: string, ackOk: bool): EntryState {
    if entry.Unparsable? then Rejected(consumer) else if ackOk then Acked(consumer) else Unacked(consumer)
  }

  /** Exactly the entries of the range are dealt with, each with its own outcome; the others stay as they were. */
  lemma {:induction false} ProcessedExactly(g: Group, stream: seq<Entry>, handlers: nat, first: nat, end: nat,
      ack: nat -> bool)
    requires first <= end <= |g.delivered| <= |stream|
    ensures var r := ProcessRange(g, stream, handlers, first, end, ack);
            forall i :: 0 <= i < |g.delivered| ==>
              r.delivered[i] == if first <= i < end then Outcome(stream[i], g.delivered[i].consumer, ack(i))
                                else g.delivered[i]
    decreases end
  {
    if first < end {
      ProcessedExactly(g, stream, handlers, first, end - 1, ack);
    }
  }

  /** The calls come entry by entry in stream order, and for each entry handler by handler. */
  lemma {:induction false} CallsComeInOrder(g: Group, stream: seq<Entry>, handlers: nat, first: nat, end: nat,
      ack: nat -> bool)
    requires first <= end <= |g.delivered| <= |stream|
    ensures var calls := ProcessRange(g, stream, handlers, first, end, ack).calls;
            && |g.calls| <= |calls| && calls[..|g.calls|] == g.calls
            && (forall a :: |g.calls| <= a < |calls| ==> first <= calls[a].entry < end && calls[a].handler < handlers)
            && forall a, b :: |g.calls| <= a < b < |calls| ==>
                 || calls[a].entry < calls[b].entry
                 || (calls[a].entry == calls[b].entry && calls[a].handler < calls[b].handler)
    decreases end
  {
    if first < end {
      CallsComeInOrder(g, stream, handlers, first, end - 1, ack);
      var before := ProcessRange(g, stream, handlers, first, end - 1, ack);
      var after := ProcessRange(g, stream, handlers, first, end, ack);
      if stream[end - 1].Published? {
        var more := CallAll(before.delivered[end - 1].consumer, handlers, end - 1);
        assert after.calls == before.calls + more;
      }
    }
  }

  class Consumer {
    const name: string
    const batchSize: nat
    const handlers: nat

    constructor (name: string, batchSize: nat, handlers: nat)
      ensures this.name == name && this.batchSize == batchSize && this.handlers == handlers
    {
      this.name, this.batchSize, this.handlers := name, batchSize, handlers;
    }

    /** Calls every registered handler in order; what a handler answers is only logged. */
    method ProcessMessage(g: Group, stream: seq<Entry>, entry: nat) returns (parsed: bool, calls: seq<HandlerCall>)
      requires entry < |g.delivered| <= |stream|
      ensures parsed == stream[entry].Published?
      ensures calls == if parsed then g.calls + CallAll(name, handlers, entry) else g.calls
    {
      calls := g.calls;
      if stream[entry] == Unparsable {
        return false, calls;
      }
      for h := 0 to handlers
        invariant calls == g.calls + CallAll(name, h, entry)
      {
        calls := calls + [HandlerCall(name, h, entry)];
      }
      parsed := true;
    }

    /** One batch: a read (nothing when it fails), then each entry read is processed in stream order. */
    method ConsumeBatch(g: Group, stream: seq<Entry>, readOk: bool, ack: nat -> bool) returns (g': Group)
      requires |g.delivered| <= |stream|
      ensures !readOk ==> g' == g
      ensures readOk ==> var r := Read(g, |stream|, name, batchSize);
                         g' == ProcessRange(r, stream, handlers, |g.delivered|, |r.delivered|, ack)
      ensures readOk ==>
                && |g.delivered| <= |g'.delivered| <= |stream| && g'.delivered[..|g.delivered|] == g.delivered
                && (|g'.delivered| == |stream| || |g'.delivered| == |g.delivered| + batchSize)
                && forall i :: |g.delivered| <= i < |g'.delivered| ==>
                     g'.delivered[i] ==
                       if stream[i].Unparsable? then Rejected(name) else if ack(i) then Acked(name) else Unacked(name)
    {
      g' := g;
      if !readOk {
        return;
      }
      var first := |g.delivered|;
      g' := Read(g, |stream|, name, batchSize);
      ghost var r := g';
      ReadTakesTheNext(g, |stream|, name, batchSize);
      for entry := first to |g'.delivered|
        invariant g' == ProcessRange(r, stream, handlers, first, entry, ack)
        invariant forall i :: entry <= i < |g'.delivered| ==> g'.delivered[i] == Waiting(name)
      {
        var parsed, calls := ProcessMessage(g', stream, entry);
        var outcome := if !parsed then Rejected(name) else if ack(entry) then Acked(name) else Unacked(name);
        g' := Group(g'.delivered[entry := outcome], calls);
      }
      ProcessedExactly(r, stream, handlers, first, |r.delivered|, ack);
    }
  }
}
