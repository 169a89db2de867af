// The data path of the audio renderer on values: buffers waiting to be played,
// the events the component emits, and what one pull of the track does to them.

module AudioStream {
  import opened Common

  /** The part of a data header that is still to be played. */
  datatype Buffer = Buffer(id: nat, payload: seq<byte>, eos: bool)

  /** What an observer of the track and of the port sees. */
  datatype Event =
    | Deliver(bytes: seq<byte>)   // bytes copied into the track's buffer
    | EndOfStream                 // the end-of-stream event of the port
    | Return(id: nat)             // a data header handed back to the client
    | Discard(id: nat)            // an event header handed back to the client

  /** All pending bytes of a queue, in playing order. */
  function Bytes(q: seq<Buffer>): seq<byte> {
    if q == [] then [] else q[0].payload + Bytes(q[1..])
  }

  function Ids(q: seq<Buffer>): (r: seq<nat>)
    ensures |r| == |q|
    ensures forall i :: 0 <= i < |q| ==> r[i] == q[i].id
  {
    if q == [] then [] else [q[0].id] + Ids(q[1..])
  }

  function Delivered(log: seq<Event>): seq<byte> {
    if log == [] then []
    else Delivered(log[..|log| - 1]) + (if log[|log| - 1].Deliver? then log[|log| - 1].bytes else [])
  }

  function Returned(log: seq<Event>): seq<nat> {
    if log == [] then []
    else Returned(log[..|log| - 1]) + (if log[|log| - 1].Return? then [log[|log| - 1].id] else [])
  }

  function Discarded(log: seq<Event>): seq<nat> {
    if log == [] then []
    else Discarded(log[..|log| - 1]) + (if log[|log| - 1].Discard? then [log[|log| - 1].id] else [])
  }

  lemma {:induction false} BytesAppend(p: seq<Buffer>, q: seq<Buffer>)
    ensures Bytes(p + q) == Bytes(p) + Bytes(q)
  {
    if p == [] {
      assert p + q == q;
    } else {
      BytesAppend(p[1..], q);
      assert (p + q)[1..] == p[1..] + q;
      Assoc(p[0].payload, Bytes(p[1..]), Bytes(q));
    }
  }

  lemma BytesOne(b: Buffer)
    ensures Bytes([b]) == b.payload
  {
  }

  lemma BytesSnoc(q: seq<Buffer>, b: Buffer)
    ensures Bytes(q + [b]) == Bytes(q) + b.payload
  {
    BytesAppend(q, [b]);
    BytesOne(b);
  }

  lemma Assoc<T>(p: seq<T>, q: seq<T>, r: seq<T>)
    ensures p + (q + r) == p + q + r
  {
  }

  lemma {:induction false} DiscardedAppend(p: seq<Event>, q: seq<Event>)
    ensures Discarded(p + q) == Discarded(p) + Discarded(q)
  {
    if q == [] {
      assert p + q == p;
    } else {
      var init, e := q[..|q| - 1], q[|q| - 1];
      DiscardedAppend(p, init);
      assert (p + q)[..|p + q| - 1] == p + init;
      Assoc(Discarded(p), Discarded(init), if e.Discard? then [e.id] else []);
    }
  }

  lemma DiscardedSnoc(log: seq<Event>, e: Event)
    ensures Discarded(log + [e]) == Discarded(log) + (if e.Discard? then [e.id] else [])
    ensures !e.Discard? ==> Discarded(log + [e]) == Discarded(log)
  {
    assert (log + [e])[..|log|] == log;
  }

  lemma {:induction false} LogAppend(p: seq<Event>, q: seq<Event>)
    ensures Delivered(p + q) == Delivered(p) + Delivered(q)
    ensures Returned(p + q) == Returned(p) + Returned(q)
  {
    if q == [] {
      assert p + q == p;
    } else {
      var init, e := q[..|q| - 1], q[|q| - 1];
      LogAppend(p, init);
      assert (p + q)[..|p + q| - 1] == p + init;
      Assoc(Delivered(p), Delivered(init), if e.Deliver? then e.bytes else []);
      Assoc(Returned(p), Returned(init), if e.Return? then [e.id] else []);
    }
  }

  /** Appending one event. */
  lemma LogSnoc(log: seq<Event>, e: Event)
    ensures Delivered(log + [e]) == Delivered(log) + (if e.Deliver? then e.bytes else [])
    ensures Returned(log + [e]) == Returned(log) + (if e.Return? then [e.id] else [])
    ensures !e.Deliver? ==> Delivered(log + [e]) == Delivered(log)
    ensures !e.Return? ==> Returned(log + [e]) == Returned(log)
  {
  }

  // ------------------------------------------------------------------------------------
  // One pull of the track

  datatype Pull = Pull(events: seq<Event>, rest: seq<Buffer>)

  /** The events for a header that has just been emptied. */
  function Retire(b: Buffer): seq<Event> {
    if b.eos then [EndOfStream, Return(b.id)] else [Return(b.id)]
  }

  /** The events for a header played whole. */
  function Played(b: Buffer): seq<Event> {
    [Deliver(b.payload)] + Retire(b)
  }

  /**
   * What a pull of `space` bytes does: whole headers are played and retired until the
   * space is used up, and a header that does not fit is played in part. Unlike the
   * program, which takes a header out and puts it back, this never re-queues.
   */
  function Drain(q: seq<Buffer>, space: nat): Pull
    decreases |q|
  {
    if space == 0 || q == [] then Pull([], q)
    else
      var b := q[0];
      if |b.payload| > space then
        Pull([Deliver(b.payload[..space])], [b.(payload := b.payload[space..])] + q[1..])
      else
        var p := Drain(q[1..], space - |b.payload|);
        Pull(Played(b) + p.events, p.rest)
  }

  lemma LogOne(e: Event)
    ensures Delivered([e]) == if e.Deliver? then e.bytes else []
    ensures Returned([e]) == if e.Return? then [e.id] else []
  {
  }

  lemma RetireEffect(b: Buffer)
    ensures Delivered(Retire(b)) == []
    ensures Returned(Retire(b)) == [b.id]
  {
    LogOne(Return(b.id));
    if b.eos {
      LogOne(EndOfStream);
      LogAppend([EndOfStream], [Return(b.id)]);
      assert Retire(b) == [EndOfStream] + [Return(b.id)];
    }
  }

  lemma PlayedEffect(b: Buffer)
    ensures Delivered(Played(b)) == b.payload
    ensures Returned(Played(b)) == [b.id]
  {
    LogOne(Deliver(b.payload));
    RetireEffect(b);
    LogAppend([Deliver(b.payload)], Retire(b));
  }

  /** Playing the head of the queue whole. */
  lemma DrainWhole(q: seq<Buffer>, space: nat)
    requires q != [] && 0 < space && |q[0].payload| <= space
    ensures var p := Drain(q[1..], space - |q[0].payload|);
      && Drain(q, space) == Pull(Played(q[0]) + p.events, p.rest)
      && Delivered(Drain(q, space).events) == q[0].payload + Delivered(p.events)
      && Returned(Drain(q, space).events) == [q[0].id] + Returned(p.events)
  {
    PlayedEffect(q[0]);
    LogAppend(Played(q[0]), Drain(q[1..], space - |q[0].payload|).events);
  }

  lemma SplitHead(q: seq<Buffer>, n: nat)
    requires q != [] && n <= |q[0].payload|
    ensures var rest := [q[0].(payload := q[0].payload[n..])] + q[1..];
      Bytes(q) == q[0].payload[..n] + Bytes(rest) && Ids(rest) == Ids(q)
  {
    var rest := [q[0].(payload := q[0].payload[n..])] + q[1..];
    assert rest[1..] == q[1..];
    assert q[0].payload == q[0].payload[..n] + q[0].payload[n..];
    assert q[0].payload[..n] + q[0].payload[n..] + Bytes(q[1..])
        == q[0].payload[..n] + (q[0].payload[n..] + Bytes(q[1..]));
  }

  /** Playing a part of the head of the queue. */
  lemma DrainPart(q: seq<Buffer>, space: nat)
    requires q != [] && 0 < space < |q[0].payload|
    ensures Delivered(Drain(q, space).events) == q[0].payload[..space]
    ensures Returned(Drain(q, space).events) == []
    ensures Bytes(q) == q[0].payload[..space] + Bytes(Drain(q, space).rest)
    ensures Ids(Drain(q, space).rest) == Ids(q)
  {
    LogOne(Deliver(q[0].payload[..space]));
    SplitHead(q, space);
  }

  /**
   * A pull delivers exactly the first min(space, pending) pending bytes and leaves the
   * other bytes pending, in order.
   */
  lemma {:induction false} DrainBytes(q: seq<Buffer>, space: nat)
    ensures Delivered(Drain(q, space).events) + Bytes(Drain(q, space).rest) == Bytes(q)
    ensures |Delivered(Drain(q, space).events)| == Min(space, |Bytes(q)|)
    decreases |q|
  {
    if space == 0 || q == [] {
    } else if |q[0].payload| > space {
      DrainPart(q, space);
    } else {
      DrainBytes(q[1..], space - |q[0].payload|);
      DrainWhole(q, space);
    }
  }

  /** A pull hands headers back in queue order, none lost and none doubled. */
  lemma {:induction false} DrainHeaders(q: seq<Buffer>, space: nat)
    ensures Returned(Drain(q, space).events) + Ids(Drain(q, space).rest) == Ids(q)
    decreases |q|
  {
    if space == 0 || q == [] {
    } else if |q[0].payload| > space {
      DrainPart(q, space);
    } else {
      var p := Drain(q[1..], space - |q[0].payload|);
      DrainHeaders(q[1..], space - |q[0].payload|);
      DrainWhole(q, space);
      Assoc([q[0].id], Returned(p.events), Ids(p.rest));
    }
  }

  /** The same as a prefix: what a caller sees in the track's buffer. */
  lemma DrainPrefix(q: seq<Buffer>, space: nat)
    ensures Delivered(Drain(q, space).events) == Bytes(q)[..Min(space, |Bytes(q)|)]
  {
    DrainBytes(q, space);
    var d := Delivered(Drain(q, space).events);
    assert d == (d + Bytes(Drain(q, space).rest))[..|d|];
  }

  // ------------------------------------------------------------------------------------
  // Whole runs of calls, one after the other

  datatype Stream = Stream(queue: seq<Buffer>, log: seq<Event>, counter: int)

  const EMPTY: Stream := Stream([], [], 0)

  datatype Op =
    | Send(buffer: Buffer)        // a data header
    | SendEvent(id: nat)          // a header carrying a command
    | MoreData(space: nat)        // the track asks for data
    | Flush

  function FlushEvents(q: seq<Buffer>): seq<Event> {
    if q == [] then [] else [Return(q[0].id)] + FlushEvents(q[1..])
  }

  function Step(s: Stream, op: Op): Stream {
    match op
    case Send(b) =>
      s.(queue := s.queue + [b], counter := Wrap32(s.counter + |b.payload|))
    case SendEvent(id) =>
      s.(log := s.log + [Discard(id)])
    case MoreData(space) =>
      var p := Drain(s.queue, space);
      Stream(p.rest, s.log + p.events, Wrap32(s.counter - |Delivered(p.events)|))
    case Flush =>
      Stream([], s.log + FlushEvents(s.queue), 0)
  }

  function Run(s: Stream, ops: seq<Op>): Stream {
    if ops == [] then s else Step(Run(s, ops[..|ops| - 1]), ops[|ops| - 1])
  }

  function Sent(ops: seq<Op>): seq<Buffer> {
    if ops == [] then []
    else Sent(ops[..|ops| - 1]) + (if ops[|ops| - 1].Send? then [ops[|ops| - 1].buffer] else [])
  }

  lemma {:induction false} FlushReturnsAll(q: seq<Buffer>)
    ensures Returned(FlushEvents(q)) == Ids(q)
    ensures Delivered(FlushEvents(q)) == []
  {
    if q == [] {
    } else {
      FlushReturnsAll(q[1..]);
      LogSnoc([], Return(q[0].id));
      assert [] + [Return(q[0].id)] == [Return(q[0].id)];
      LogAppend([Return(q[0].id)], FlushEvents(q[1..]));
      assert q == [q[0]] + q[1..];
    }
  }

  /** How one call moves bytes, when it is not a flush. */
  lemma StepBytes(s: Stream, op: Op)
    requires op != Flush
    ensures Delivered(Step(s, op).log) + Bytes(Step(s, op).queue)
         == if op.Send? then Delivered(s.log) + Bytes(s.queue) + op.buffer.payload
            else Delivered(s.log) + Bytes(s.queue)
  {
    match op
    case Send(b) =>
      BytesSnoc(s.queue, b);
      assert Delivered(s.log) + (Bytes(s.queue) + b.payload) == Delivered(s.log) + Bytes(s.queue) + b.payload;
    case SendEvent(id) =>
      LogSnoc(s.log, Discard(id));
    case MoreData(space) => PullBytes(s.log, s.queue, space);
  }

  lemma PullBytes(log: seq<Event>, q: seq<Buffer>, space: nat)
    ensures var p := Drain(q, space);
      Delivered(log + p.events) + Bytes(p.rest) == Delivered(log) + Bytes(q)
  {
    var p := Drain(q, space);
    DrainBytes(q, space);
    LogAppend(log, p.events);
    Assoc(Delivered(log), Delivered(p.events), Bytes(p.rest));
  }

  /** How one call moves headers. */
  lemma StepHeaders(s: Stream, op: Op)
    ensures Returned(Step(s, op).log) + Ids(Step(s, op).queue)
         == Returned(s.log) + Ids(s.queue) + (if op.Send? then [op.buffer.id] else [])
  {
    match op
    case Send(b) =>
      assert Ids(s.queue + [b]) == Ids(s.queue) + [b.id];
      Assoc(Returned(s.log), Ids(s.queue), [b.id]);
    case SendEvent(id) =>
      LogSnoc(s.log, Discard(id));
    case MoreData(space) =>
      DrainHeaders(s.queue, space);
      var p := Drain(s.queue, space);
      LogAppend(s.log, p.events);
      Assoc(Returned(s.log), Returned(p.events), Ids(p.rest));
    case Flush =>
      FlushReturnsAll(s.queue);
      LogAppend(s.log, FlushEvents(s.queue));
  }

  /** How one call moves the counter. */
  lemma StepCounter(s: Stream, op: Op)
    requires s.counter == Wrap32(|Bytes(s.queue)|)
    ensures Step(s, op).counter == Wrap32(|Bytes(Step(s, op).queue)|)
  {
    match op
    case Send(b) =>
      BytesSnoc(s.queue, b);
      WrapAdd(|Bytes(s.queue)|, |b.payload|);
    case SendEvent(_) =>
    case MoreData(space) =>
      DrainBytes(s.queue, space);
      WrapAdd(|Bytes(s.queue)|, -|Delivered(Drain(s.queue, space).events)|);
    case Flush =>
  }

  /** The event headers sent, in order. */
  function EventsSent(ops: seq<Op>): seq<nat> {
    if ops == [] then []
    else EventsSent(ops[..|ops| - 1]) + (if ops[|ops| - 1].SendEvent? then [ops[|ops| - 1].id] else [])
  }

  lemma {:induction false} NoneDiscarded(log: seq<Event>)
    requires forall e :: e in log ==> !e.Discard?
    ensures Discarded(log) == []
  {
    if log != [] {
      assert log == log[..|log| - 1] + [log[|log| - 1]];
      NoneDiscarded(log[..|log| - 1]);
    }
  }

  lemma {:induction false} DrainDiscardsNone(q: seq<Buffer>, space: nat)
    ensures forall e :: e in Drain(q, space).events ==> !e.Discard?
    decreases |q|
  {
    if space > 0 && q != [] && |q[0].payload| <= space {
      DrainDiscardsNone(q[1..], space - |q[0].payload|);
    }
  }

  lemma {:induction false} FlushDiscardsNone(q: seq<Buffer>)
    ensures forall e :: e in FlushEvents(q) ==> !e.Discard?
  {
    if q != [] {
      FlushDiscardsNone(q[1..]);
    }
  }

  lemma StepDiscards(s: Stream, op: Op)
    ensures Discarded(Step(s, op).log) == Discarded(s.log) + (if op.SendEvent? then [op.id] else [])
  {
    match op
    case Send(_) =>
    case SendEvent(id) => DiscardedSnoc(s.log, Discard(id));
    case MoreData(space) =>
      var e := Drain(s.queue, space).events;
      DrainDiscardsNone(s.queue, space);
      NoneDiscarded(e);
      DiscardedAppend(s.log, e);
    case Flush =>
      FlushDiscardsNone(s.queue);
      NoneDiscarded(FlushEvents(s.queue));
      DiscardedAppend(s.log, FlushEvents(s.queue));
  }

  /** Event headers are handed back, each once and in the order sent, and by nothing else. */
  lemma {:induction false} EventsHandedBack(ops: seq<Op>)
    ensures Discarded(Run(EMPTY, ops).log) == EventsSent(ops)
  {
    if ops == [] {
    } else {
      EventsHandedBack(ops[..|ops| - 1]);
      StepDiscards(Run(EMPTY, ops[..|ops| - 1]), ops[|ops| - 1]);
    }
  }

  /** A flush leaves nothing pending. */
  lemma FlushEmpties(s: Stream)
    ensures var t := Step(s, Flush);
      t.queue == [] && t.counter == 0 && Returned(t.log) == Returned(s.log) + Ids(s.queue)
      && Delivered(t.log) == Delivered(s.log)
  {
    FlushReturnsAll(s.queue);
    LogAppend(s.log, FlushEvents(s.queue));
  }

  /** The byte counter is the number of pending bytes, as far as 32 bits can tell. */
  lemma {:induction false} CounterIsPending(ops: seq<Op>)
    ensures Run(EMPTY, ops).counter == Wrap32(|Bytes(Run(EMPTY, ops).queue)|)
  {
    if ops == [] {
    } else {
      CounterIsPending(ops[..|ops| - 1]);
      StepCounter(Run(EMPTY, ops[..|ops| - 1]), ops[|ops| - 1]);
    }
  }

  /**
   * Headers: at every moment of every run, flushes included, the data headers handed back,
   * followed by those in the queue, are exactly the headers sent, in send order.
   */
  lemma {:induction false} HeadersConserved(ops: seq<Op>)
    ensures Returned(Run(EMPTY, ops).log) + Ids(Run(EMPTY, ops).queue) == Ids(Sent(ops))
  {
    if ops == [] {
    } else {
      var init, last := ops[..|ops| - 1], ops[|ops| - 1];
      HeadersConserved(init);
      StepHeaders(Run(EMPTY, init), last);
      assert Ids(Sent(ops)) == Ids(Sent(init)) + (if last.Send? then [last.buffer.id] else []);
    }
  }

  /**
   * Bytes: in a run without a flush, whatever the sizes asked for, the bytes delivered
   * followed by the bytes still pending are those at the start followed by the payloads sent.
   */
  lemma {:induction false} BytesConserved(s: Stream, ops: seq<Op>)
    requires Flush !in ops
    ensures Delivered(Run(s, ops).log) + Bytes(Run(s, ops).queue)
         == Delivered(s.log) + Bytes(s.queue) + Bytes(Sent(ops))
  {
    if ops == [] {
    } else {
      var init, last := ops[..|ops| - 1], ops[|ops| - 1];
      var before, start := Run(s, init), Delivered(s.log) + Bytes(s.queue);
      BytesConserved(s, init);
      StepBytes(before, last);
      if last.Send? {
        BytesSnoc(Sent(init), last.buffer);
        Assoc(start, Bytes(Sent(init)), last.buffer.payload);
      } else {
        assert Sent(ops) == Sent(init);
      }
    }
  }

  // ------------------------------------------------------------------------------------
  // From the last flush on

  /** The calls since the last flush, and the log as it was then. */
  function SinceFlush(ops: seq<Op>): seq<Op> {
    if ops == [] || ops[|ops| - 1].Flush? then [] else SinceFlush(ops[..|ops| - 1]) + [ops[|ops| - 1]]
  }

  function FlushLog(ops: seq<Op>): seq<Event> {
    if ops == [] then [] else if ops[|ops| - 1].Flush? then Run(EMPTY, ops).log else FlushLog(ops[..|ops| - 1])
  }

  function After(earlier: seq<Event>, s: Stream): Stream {
    s.(log := earlier + s.log)
  }

  lemma StepAfter(earlier: seq<Event>, s: Stream, op: Op)
    ensures Step(After(earlier, s), op) == After(earlier, Step(s, op))
  {
    match op
    case Send(_) =>
    case SendEvent(id) => Assoc(earlier, s.log, [Discard(id)]);
    case MoreData(space) => Assoc(earlier, s.log, Drain(s.queue, space).events);
    case Flush => Assoc(earlier, s.log, FlushEvents(s.queue));
  }

  /** Every run goes on, after its last flush, like a run from the start. */
  lemma {:induction false} RunSinceFlush(ops: seq<Op>)
    ensures Flush !in SinceFlush(ops)
    ensures Run(EMPTY, ops) == After(FlushLog(ops), Run(EMPTY, SinceFlush(ops)))
  {
    if ops == [] {
    } else {
      var init, last := ops[..|ops| - 1], ops[|ops| - 1];
      if last.Flush? {
        assert FlushLog(ops) + [] == FlushLog(ops);
      } else {
        var recent := SinceFlush(init);
        RunSinceFlush(init);
        StepAfter(FlushLog(init), Run(EMPTY, recent), last);
        assert (recent + [last])[..|recent|] == recent;
      }
    }
  }
}
