// The audio renderer under concurrency. Any number of sends and the track's callback
// advance in steps: a lock section, a queue operation, a copy and a call to the client are
// each one step. No flush runs during the period modelled, which starts with an empty queue.

module AudioInterleaving {
  import opened Common
  import opened AudioStream

  /** Where the callback is. `size` is what it has copied so far, `space` what still fits. */
  datatype Phase =
    | Idle
    | Fetching(space: nat, size: nat)
    | Holding(space: nat, size: nat, buffer: Buffer)    // taken from the queue, not yet copied
    | Copied(space: nat, size: nat, buffer: Buffer)     // `buffer` is what the copy has left of it
    | Announced(space: nat, size: nat, buffer: Buffer)  // end of stream sent, header not yet handed back
    | Leaving(size: nat)                                // out of the loop, counter not yet lowered

  /** `counted` holds the sends that have raised the counter and not yet queued their header. */
  datatype State = State(
    queue: seq<Buffer>,
    counted: seq<Buffer>,
    phase: Phase,
    counter: int,
    log: seq<Event>,
    sent: seq<Buffer>)  // history: the headers queued, in order

  const START := State([], [], Idle, 0, [], [])

  datatype Action =
    | Count(buffer: Buffer)   // a send: lock, raise the counter, unlock
    | Put(index: nat)         // a send: queue its header
    | Reject(id: nat)         // a send of an event header: hand it back at once
    | Begin(space: nat)       // the callback: test the queue's length
    | Get                     // take the first header, or find none and leave the loop
    | Copy                    // copy min(length, space) bytes
    | Settle                  // put back what is left, or else announce the end of the stream
                              // if the header is flagged and hand it back if it is not
    | HandBack                // hand back the header whose end of stream has been announced
    | Full                    // the loop test fails
    | Subtract                // lock, lower the counter, unlock

  predicate Enabled(s: State, a: Action) {
    match a
    case Count(_) => true
    case Put(i) => i < |s.counted|
    case Reject(_) => true
    case Begin(_) => s.phase.Idle?
    case Get => s.phase.Fetching? && s.phase.space > 0
    case Copy => s.phase.Holding?
    case Settle => s.phase.Copied?
    case HandBack => s.phase.Announced?
    case Full => s.phase.Fetching? && s.phase.space == 0
    case Subtract => s.phase.Leaving?
  }

  function Next(s: State, a: Action): State
    requires Enabled(s, a)
  {
    match a
    case Count(b) =>
      s.(counted := s.counted + [b], counter := Wrap32(s.counter + |b.payload|))
    case Put(i) =>
      s.(queue := s.queue + [s.counted[i]],
         sent := s.sent + [s.counted[i]],
         counted := s.counted[..i] + s.counted[i + 1..])
    case Reject(id) =>
      s.(log := s.log + [Discard(id)])
    case Begin(space) =>
      if s.queue == [] then s else s.(phase := Fetching(space, 0))
    case Get =>
      if s.queue == [] then s.(phase := Leaving(s.phase.size))
      else s.(phase := Holding(s.phase.space, s.phase.size, s.queue[0]), queue := s.queue[1..])
    case Copy =>
      var b := s.phase.buffer;
      var n := Min(|b.payload|, s.phase.space);
      s.(phase := Copied(s.phase.space - n, s.phase.size + n, b.(payload := b.payload[n..])),
         log := s.log + [Deliver(b.payload[..n])])
    case Settle =>
      var b := s.phase.buffer;
      var p := Fetching(s.phase.space, s.phase.size);
      if b.payload != [] then s.(phase := p, queue := [b] + s.queue)
      else if b.eos then
        s.(phase := Announced(s.phase.space, s.phase.size, b), log := s.log + [EndOfStream])
      else s.(phase := p, log := s.log + [Return(b.id)])
    case HandBack =>
      s.(phase := Fetching(s.phase.space, s.phase.size), log := s.log + [Return(s.phase.buffer.id)])
    case Full => s.(phase := Leaving(s.phase.size))
    case Subtract => s.(phase := Idle, counter := Wrap32(s.counter - s.phase.size))
  }

  ghost predicate Reaches(s: State, actions: seq<Action>, t: State)
    decreases |actions|
  {
    if actions == [] then s == t
    else Enabled(s, actions[0]) && Reaches(Next(s, actions[0]), actions[1..], t)
  }

  // ------------------------------------------------------------------------------------
  // What every step keeps

  function InHand(p: Phase): seq<Buffer> {
    if p.Holding? || p.Copied? || p.Announced? then [p.buffer] else []
  }

  /** The headers not yet handed back, in order. */
  function Pipeline(s: State): seq<Buffer> {
    InHand(s.phase) + s.queue
  }

  function CopiedNotSubtracted(p: Phase): nat {
    if p.Idle? then 0 else p.size
  }

  /** Every byte the counter stands for. */
  function Accounted(s: State): nat {
    |Bytes(s.queue)| + |Bytes(InHand(s.phase))| + |Bytes(s.counted)| + CopiedNotSubtracted(s.phase)
  }

  ghost predicate CounterExact(s: State) {
    s.counter == Wrap32(Accounted(s))
  }

  /**
   * A header is taken only for a non-empty space, bytes are left in it only if that is used
   * up, and an end of stream is announced only for an empty, flagged header.
   */
  predicate InLoop(p: Phase) {
    && (p.Holding? ==> p.space > 0)
    && (p.Copied? && p.buffer.payload != [] ==> p.space == 0)
    && (p.Announced? ==> p.buffer.payload == [] && p.buffer.eos)
  }

  /** The bytes delivered, then those in the pipeline p, are what was sent. */
  ghost predicate BytesInOrder(log: seq<Event>, p: seq<Buffer>, sent: seq<Buffer>) {
    Delivered(log) + Bytes(p) == Bytes(sent)
  }

  /** The headers handed back, then the pipeline, are what was sent; only its first is begun. */
  ghost predicate HeadersInOrder(r: seq<nat>, p: seq<Buffer>, sent: seq<Buffer>) {
    && |sent| == |r| + |p|
    && (forall i :: 0 <= i < |r| ==> r[i] == sent[i].id)
    && (forall i :: 0 <= i < |p| ==> p[i].id == sent[|r| + i].id && p[i].eos == sent[|r| + i].eos)
    && (forall i :: 1 <= i < |p| ==> p[i] == sent[|r| + i])
  }

  /** The callback's last event is an end of stream. Event headers discarded by sends do not count. */
  predicate Announces(log: seq<Event>) {
    log != [] &&
    (var last := log[|log| - 1];
     last.EndOfStream? || (last.Discard? && Announces(log[..|log| - 1])))
  }

  /**
   * Every end-of-stream event comes when exactly the headers before a flagged one have been
   * handed back and all bytes up to and including that header's have been delivered; and a
   * header handed back is flagged exactly if such an event is the callback's last before.
   */
  ghost predicate EosInOrder(log: seq<Event>, sent: seq<Buffer>) {
    forall k :: 0 <= k < |log| ==> EosSound(log, sent, k) && EosComplete(log, sent, k)
  }

  ghost predicate EosSound(log: seq<Event>, sent: seq<Buffer>, k: nat)
    requires k < |log|
  {
    var j := |Returned(log[..k])|;
    log[k].EndOfStream? ==> j < |sent| && sent[j].eos && Delivered(log[..k]) == Bytes(sent[..j + 1])
  }

  ghost predicate EosComplete(log: seq<Event>, sent: seq<Buffer>, k: nat)
    requires k < |log|
  {
    var j := |Returned(log[..k])|;
    log[k].Return? ==> j < |sent| && sent[j].id == log[k].id && (sent[j].eos <==> Announces(log[..k]))
  }

  ghost predicate InOrder(log: seq<Event>, p: seq<Buffer>, sent: seq<Buffer>) {
    BytesInOrder(log, p, sent) && HeadersInOrder(Returned(log), p, sent) && EosInOrder(log, sent)
  }

  ghost predicate Inv(s: State) {
    && CounterExact(s)
    && InLoop(s.phase)
    && InOrder(s.log, Pipeline(s), s.sent)
    && (Announces(s.log) <==> s.phase.Announced?)
  }

  // ------------------------------------------------------------------------------------
  // The counter

  lemma BytesHead(q: seq<Buffer>)
    requires q != []
    ensures Bytes(q) == q[0].payload + Bytes(q[1..])
    ensures |Bytes(q)| == |q[0].payload| + |Bytes(q[1..])|
  {
  }

  lemma BytesWithout(q: seq<Buffer>, i: nat)
    requires i < |q|
    ensures |Bytes(q)| == |q[i].payload| + |Bytes(q[..i] + q[i + 1..])|
  {
    assert q == q[..i] + q[i..];
    BytesAppend(q[..i], q[i..]);
    BytesAppend(q[..i], q[i + 1..]);
    BytesHead(q[i..]);
    assert q[i..][1..] == q[i + 1..];
  }

  lemma InHandBytes(p: Phase)
    ensures Bytes(InHand(p)) == if p.Holding? || p.Copied? || p.Announced? then p.buffer.payload else []
  {
  }

  lemma PutBackBytes(b: Buffer, q: seq<Buffer>)
    ensures |Bytes([b] + q)| == |b.payload| + |Bytes(q)|
  {
  }

  /** Outside the two lock sections bytes move, but none is gained or lost. */
  lemma MovesKeepAccounted(s: State, a: Action)
    requires Enabled(s, a) && !a.Count? && !a.Subtract? && InLoop(s.phase)
    ensures Accounted(Next(s, a)) == Accounted(s)
  {
    InHandBytes(s.phase);
    InHandBytes(Next(s, a).phase);
    match a
    case Put(i) =>
      BytesSnoc(s.queue, s.counted[i]);
      BytesWithout(s.counted, i);
    case Get =>
      if s.queue != [] {
        BytesHead(s.queue);
      }
    case Settle =>
      PutBackBytes(s.phase.buffer, s.queue);
    case _ =>
  }

  lemma StepKeepsCounter(s: State, a: Action)
    requires Enabled(s, a) && CounterExact(s) && InLoop(s.phase)
    ensures CounterExact(Next(s, a)) && InLoop(Next(s, a).phase)
  {
    match a
    case Count(b) =>
      BytesSnoc(s.counted, b);
      WrapAdd(Accounted(s), |b.payload|);
    case Subtract =>
      WrapAdd(Accounted(s), -(s.phase.size as int));
    case _ =>
      MovesKeepAccounted(s, a);
  }

  // ------------------------------------------------------------------------------------
  // The order of events: what is already in the log

  lemma PrefixOfSnoc(log: seq<Event>, e: Event, k: nat)
    requires k <= |log|
    ensures (log + [e])[..k] == log[..k]
    ensures k == |log| ==> log[..k] == log
  {
  }

  /** Appending an event that is in its place. */
  lemma EosAfterEvent(log: seq<Event>, sent: seq<Buffer>, e: Event)
    requires EosInOrder(log, sent)
    requires var j := |Returned(log)|;
      && (e.EndOfStream? ==> j < |sent| && sent[j].eos && Delivered(log) == Bytes(sent[..j + 1]))
      && (e.Return? ==> j < |sent| && sent[j].id == e.id && (sent[j].eos <==> Announces(log)))
    ensures EosInOrder(log + [e], sent)
  {
    forall k | 0 <= k <= |log|
      ensures EosSound(log + [e], sent, k) && EosComplete(log + [e], sent, k)
    {
      PrefixOfSnoc(log, e, k);
      assert k < |log| ==> EosSound(log, sent, k) && EosComplete(log, sent, k);
    }
  }

  /** What holds of a log's events still holds when more is sent. */
  lemma EosAfterPut(log: seq<Event>, sent: seq<Buffer>, b: Buffer)
    requires EosInOrder(log, sent)
    ensures EosInOrder(log, sent + [b])
  {
    forall k | 0 <= k < |log|
      ensures EosSound(log, sent + [b], k) && EosComplete(log, sent + [b], k)
    {
      assert EosSound(log, sent, k) && EosComplete(log, sent, k);
      var j := |Returned(log[..k])|;
      if j < |sent| {
        assert (sent + [b])[..j + 1] == sent[..j + 1];
      }
    }
  }

  lemma AnnouncesSnoc(log: seq<Event>, e: Event)
    ensures Announces(log + [e]) <==> e.EndOfStream? || (e.Discard? && Announces(log))
  {
    assert (log + [e])[..|log|] == log;
  }

  // ------------------------------------------------------------------------------------
  // The order of events: one lemma for each kind of step

  lemma PutKeepsOrder(log: seq<Event>, p: seq<Buffer>, sent: seq<Buffer>, b: Buffer)
    requires InOrder(log, p, sent)
    ensures InOrder(log, p + [b], sent + [b])
  {
    BytesSnoc(p, b);
    BytesSnoc(sent, b);
    Assoc(Delivered(log), Bytes(p), b.payload);
    HeadersAfterPut(Returned(log), p, sent, b);
    EosAfterPut(log, sent, b);
  }

  lemma HeadersAfterPut(r: seq<nat>, p: seq<Buffer>, sent: seq<Buffer>, b: Buffer)
    requires HeadersInOrder(r, p, sent)
    ensures HeadersInOrder(r, p + [b], sent + [b])
  {
  }

  lemma DiscardKeepsOrder(log: seq<Event>, p: seq<Buffer>, sent: seq<Buffer>, id: nat)
    requires InOrder(log, p, sent)
    ensures InOrder(log + [Discard(id)], p, sent)
  {
    LogSnoc(log, Discard(id));
    EosAfterEvent(log, sent, Discard(id));
  }

  /** The first header of the pipeline without its first n bytes. */
  function Cut(p: seq<Buffer>, n: nat): seq<Buffer>
    requires p != [] && n <= |p[0].payload|
  {
    [p[0].(payload := p[0].payload[n..])] + p[1..]
  }

  lemma CopyKeepsOrder(log: seq<Event>, p: seq<Buffer>, sent: seq<Buffer>, n: nat)
    requires InOrder(log, p, sent) && p != [] && n <= |p[0].payload|
    ensures InOrder(log + [Deliver(p[0].payload[..n])], Cut(p, n), sent)
  {
    var e := Deliver(p[0].payload[..n]);
    LogSnoc(log, e);
    CopyKeepsBytes(log, p, sent, n);
    HeadersAfterCut(Returned(log), p, sent, n);
    EosAfterEvent(log, sent, e);
  }

  lemma CopyKeepsBytes(log: seq<Event>, p: seq<Buffer>, sent: seq<Buffer>, n: nat)
    requires BytesInOrder(log, p, sent) && p != [] && n <= |p[0].payload|
    ensures BytesInOrder(log + [Deliver(p[0].payload[..n])], Cut(p, n), sent)
  {
    LogSnoc(log, Deliver(p[0].payload[..n]));
    SplitHead(p, n);
    Assoc(Delivered(log), p[0].payload[..n], Bytes(Cut(p, n)));
  }

  lemma HeadersAfterCut(r: seq<nat>, p: seq<Buffer>, sent: seq<Buffer>, n: nat)
    requires HeadersInOrder(r, p, sent) && p != [] && n <= |p[0].payload|
    ensures HeadersInOrder(r, Cut(p, n), sent)
  {
  }

  /** When the first header of the pipeline is empty, it and all before it have been delivered in full. */
  lemma EmptyIsDelivered(log: seq<Event>, p: seq<Buffer>, sent: seq<Buffer>)
    requires BytesInOrder(log, p, sent) && HeadersInOrder(Returned(log), p, sent)
    requires p != [] && p[0].payload == []
    ensures var j := |Returned(log)|;
      j < |sent| && sent[j].id == p[0].id && sent[j].eos == p[0].eos && Delivered(log) == Bytes(sent[..j + 1])
  {
    var j := |Returned(log)|;
    BytesHead(p);
    HeadersTail(Returned(log), p, sent);
    BytesSplit(sent, j + 1);
    CancelSuffix(Delivered(log), Bytes(sent[..j + 1]), Bytes(p[1..]));
  }

  lemma HeadersTail(r: seq<nat>, p: seq<Buffer>, sent: seq<Buffer>)
    requires HeadersInOrder(r, p, sent) && p != []
    ensures |r| < |sent| && p[1..] == sent[|r| + 1..]
    ensures p[0].id == sent[|r|].id && p[0].eos == sent[|r|].eos
  {
  }

  lemma BytesSplit(q: seq<Buffer>, k: nat)
    requires k <= |q|
    ensures Bytes(q) == Bytes(q[..k]) + Bytes(q[k..])
  {
    assert q == q[..k] + q[k..];
    BytesAppend(q[..k], q[k..]);
  }

  lemma CancelSuffix<T>(p: seq<T>, q: seq<T>, r: seq<T>)
    requires p + r == q + r
    ensures p == q
  {
    assert |p| == |q|;
    assert p == (p + r)[..|p|];
    assert q == (q + r)[..|q|];
  }

  /** An end of stream comes after all earlier bytes and those of its own header. */
  lemma AnnounceKeepsOrder(log: seq<Event>, p: seq<Buffer>, sent: seq<Buffer>)
    requires InOrder(log, p, sent) && p != [] && p[0].payload == [] && p[0].eos
    ensures InOrder(log + [EndOfStream], p, sent)
  {
    LogSnoc(log, EndOfStream);
    EmptyIsDelivered(log, p, sent);
    EosAfterEvent(log, sent, EndOfStream);
  }

  /** An empty header may be handed back once its end of stream, if any, has been announced. */
  lemma ReturnKeepsOrder(log: seq<Event>, p: seq<Buffer>, sent: seq<Buffer>)
    requires InOrder(log, p, sent) && p != [] && p[0].payload == [] && (p[0].eos <==> Announces(log))
    ensures InOrder(log + [Return(p[0].id)], p[1..], sent)
  {
    var e := Return(p[0].id);
    LogSnoc(log, e);
    EmptyIsDelivered(log, p, sent);
    ReturnKeepsBytes(log, p, sent);
    HeadersAfterReturn(Returned(log), p, sent);
    EosAfterEvent(log, sent, e);
  }

  lemma ReturnKeepsBytes(log: seq<Event>, p: seq<Buffer>, sent: seq<Buffer>)
    requires BytesInOrder(log, p, sent) && p != [] && p[0].payload == []
    ensures BytesInOrder(log + [Return(p[0].id)], p[1..], sent)
  {
    LogSnoc(log, Return(p[0].id));
    BytesHead(p);
  }

  lemma HeadersAfterReturn(r: seq<nat>, p: seq<Buffer>, sent: seq<Buffer>)
    requires HeadersInOrder(r, p, sent) && p != []
    ensures HeadersInOrder(r + [p[0].id], p[1..], sent)
  {
  }

  // ------------------------------------------------------------------------------------
  // The order of events in the machine

  ghost predicate Ordered(s: State) {
    InOrder(s.log, Pipeline(s), s.sent) && (Announces(s.log) <==> s.phase.Announced?)
  }

  lemma PutKeepsOrdered(s: State, i: nat)
    requires Ordered(s) && Enabled(s, Put(i))
    ensures Ordered(Next(s, Put(i)))
  {
    assert Pipeline(Next(s, Put(i))) == Pipeline(s) + [s.counted[i]];
    PutKeepsOrder(s.log, Pipeline(s), s.sent, s.counted[i]);
  }

  lemma RejectKeepsOrdered(s: State, id: nat)
    requires Ordered(s)
    ensures Ordered(Next(s, Reject(id)))
  {
    DiscardKeepsOrder(s.log, Pipeline(s), s.sent, id);
    AnnouncesSnoc(s.log, Discard(id));
  }

  lemma CopyKeepsOrdered(s: State)
    requires Ordered(s) && Enabled(s, Copy)
    ensures Ordered(Next(s, Copy))
  {
    var p := Pipeline(s);
    var n := Min(|s.phase.buffer.payload|, s.phase.space);
    assert p[0] == s.phase.buffer && p[1..] == s.queue;
    CopyKeepsOrder(s.log, p, s.sent, n);
    AnnouncesSnoc(s.log, Deliver(p[0].payload[..n]));
  }

  lemma SettleKeepsOrdered(s: State)
    requires Ordered(s) && Enabled(s, Settle)
    ensures Ordered(Next(s, Settle))
  {
    var p, b := Pipeline(s), s.phase.buffer;
    assert p[0] == b && p[1..] == s.queue;
    if b.payload != [] {
      assert Pipeline(Next(s, Settle)) == p;
    } else if b.eos {
      AnnounceKeepsOrder(s.log, p, s.sent);
      AnnouncesSnoc(s.log, EndOfStream);
    } else {
      ReturnKeepsOrder(s.log, p, s.sent);
      AnnouncesSnoc(s.log, Return(b.id));
      assert Pipeline(Next(s, Settle)) == p[1..];
    }
  }

  lemma HandBackKeepsOrdered(s: State)
    requires Ordered(s) && InLoop(s.phase) && Enabled(s, HandBack)
    ensures Ordered(Next(s, HandBack))
  {
    var p, b := Pipeline(s), s.phase.buffer;
    assert p[0] == b && p[1..] == s.queue;
    ReturnKeepsOrder(s.log, p, s.sent);
    AnnouncesSnoc(s.log, Return(b.id));
    assert Pipeline(Next(s, HandBack)) == p[1..];
  }

  lemma StepKeepsOrdered(s: State, a: Action)
    requires Ordered(s) && InLoop(s.phase) && Enabled(s, a)
    ensures Ordered(Next(s, a))
  {
    match a
    case Put(i) => PutKeepsOrdered(s, i);
    case Reject(id) => RejectKeepsOrdered(s, id);
    case Copy => CopyKeepsOrdered(s);
    case Settle => SettleKeepsOrdered(s);
    case HandBack => HandBackKeepsOrdered(s);
    case _ => assert Pipeline(Next(s, a)) == Pipeline(s);
  }

  lemma StepKeepsInv(s: State, a: Action)
    requires Enabled(s, a) && Inv(s)
    ensures Inv(Next(s, a))
  {
    StepKeepsCounter(s, a);
    StepKeepsOrdered(s, a);
  }

  lemma {:induction false} RunKeepsInv(s: State, actions: seq<Action>, t: State)
    requires Inv(s) && Reaches(s, actions, t)
    ensures Inv(t)
    decreases |actions|
  {
    if actions == [] {
    } else {
      StepKeepsInv(s, actions[0]);
      RunKeepsInv(Next(s, actions[0]), actions[1..], t);
    }
  }

  // ------------------------------------------------------------------------------------
  // The theorem on whole runs

  lemma HeadersAsIds(r: seq<nat>, p: seq<Buffer>, sent: seq<Buffer>)
    requires HeadersInOrder(r, p, sent)
    ensures r + Ids(p) == Ids(sent)
  {
  }

  /** The headers of the sends that have raised the counter. */
  function Counted(actions: seq<Action>): multiset<Buffer> {
    if actions == [] then multiset{} else CountedBy(actions[0]) + Counted(actions[1..])
  }

  lemma TakeOut(q: seq<Buffer>, i: nat)
    requires i < |q|
    ensures multiset(q) == multiset(q[..i] + q[i + 1..]) + multiset{q[i]}
  {
    assert q == q[..i] + ([q[i]] + q[i + 1..]);
  }

  function CountedBy(a: Action): multiset<Buffer> {
    if a.Count? then multiset{a.buffer} else multiset{}
  }

  lemma StepCounts(s: State, a: Action)
    requires Enabled(s, a)
    ensures multiset(Next(s, a).counted) + multiset(Next(s, a).sent)
         == multiset(s.counted) + multiset(s.sent) + CountedBy(a)
  {
    if a.Put? {
      TakeOut(s.counted, a.index);
    }
  }

  lemma {:induction false} CountedAreSent(s: State, actions: seq<Action>, t: State)
    requires Reaches(s, actions, t)
    ensures multiset(t.counted) + multiset(t.sent) == multiset(s.counted) + multiset(s.sent) + Counted(actions)
    decreases |actions|
  {
    if actions == [] {
    } else {
      StepCounts(s, actions[0]);
      CountedAreSent(Next(s, actions[0]), actions[1..], t);
    }
  }

  /** What the sends alone amount to: the headers counted and not yet queued, and those queued. */
  datatype Sends = Sends(counted: seq<Buffer>, queued: seq<Buffer>, discarded: seq<nat>)

  function SendsAfter(s: Sends, actions: seq<Action>): Sends
    decreases |actions|
  {
    if actions == [] then s
    else
      var next :=
        match actions[0]
        case Count(b) => s.(counted := s.counted + [b])
        case Put(i) =>
          if i < |s.counted| then
            s.(counted := s.counted[..i] + s.counted[i + 1..], queued := s.queued + [s.counted[i]])
          else s
        case Reject(id) => s.(discarded := s.discarded + [id])
        case _ => s;
      SendsAfter(next, actions[1..])
  }

  /** Nothing but the sends' own steps decides what they have queued, and no header is lost. */
  lemma {:induction false} SendsDecide(s: State, actions: seq<Action>, t: State)
    requires Reaches(s, actions, t)
    ensures Sends(t.counted, t.sent, Discarded(t.log))
         == SendsAfter(Sends(s.counted, s.sent, Discarded(s.log)), actions)
    ensures |t.sent| == |s.sent| + Puts(actions)
    decreases |actions|
  {
    if actions == [] {
    } else {
      StepDiscarded(s, actions[0]);
      SendsDecide(Next(s, actions[0]), actions[1..], t);
    }
  }

  lemma StepDiscarded(s: State, a: Action)
    requires Enabled(s, a)
    ensures Discarded(Next(s, a).log) == if a.Reject? then Discarded(s.log) + [a.id] else Discarded(s.log)
  {
    if Next(s, a).log != s.log {
      DiscardedSnoc(s.log, Next(s, a).log[|s.log|]);
    }
  }

  function Puts(actions: seq<Action>): nat {
    if actions == [] then 0 else Puts(actions[1..]) + (if actions[0].Put? then 1 else 0)
  }

  /**
   * In every interleaving: the counter is the number of queued bytes, plus those the callback
   * holds, plus those counted by sends but not yet queued, plus those copied but not yet
   * subtracted; bytes and headers are conserved in order; every put has queued its header, and
   * every event header has been handed back; and end-of-stream events are in their place.
   */
  lemma EveryInterleaving(actions: seq<Action>, t: State)
    requires Reaches(START, actions, t)
    ensures t.counter == Wrap32(Accounted(t))
    ensures Delivered(t.log) + Bytes(Pipeline(t)) == Bytes(t.sent)
    ensures Returned(t.log) + Ids(Pipeline(t)) == Ids(t.sent)
    ensures multiset(t.counted) + multiset(t.sent) == Counted(actions)
    ensures |t.sent| == Puts(actions)
    ensures Sends(t.counted, t.sent, Discarded(t.log)) == SendsAfter(Sends([], [], []), actions)
    ensures EosInOrder(t.log, t.sent)
  {
    RunKeepsInv(START, actions, t);
    CountedAreSent(START, actions, t);
    SendsDecide(START, actions, t);
    HeadersAsIds(Returned(t.log), Pipeline(t), t.sent);
  }

  /** With fewer than 2^32 bytes in flight, lowering the counter never underflows it. */
  lemma CounterNeverUnderflows(actions: seq<Action>, t: State)
    requires Reaches(START, actions, t) && Accounted(t) < UINT32_RANGE
    ensures t.counter == Accounted(t)
    ensures t.phase.Leaving? ==> t.phase.size <= t.counter
    ensures t.phase.Idle? && t.counted == [] ==> t.counter == |Bytes(t.queue)|
  {
    EveryInterleaving(actions, t);
  }

  // ------------------------------------------------------------------------------------
  // The callback ends, although it puts headers back and may meet empty ones

  predicate OfCallback(a: Action) {
    a.Get? || a.Copy? || a.Settle? || a.HandBack? || a.Full? || a.Subtract?
  }

  function CallbackSteps(actions: seq<Action>): nat {
    if actions == [] then 0 else CallbackSteps(actions[1..]) + (if OfCallback(actions[0]) then 1 else 0)
  }

  /** A bound on the steps left to the callback. */
  function StepsLeft(s: State): nat {
    match s.phase
    case Idle => 0
    case Fetching(space, _) => 4 * (space + |s.queue|) + 2
    case Holding(space, _, _) => 4 * (space + |s.queue|) + 5
    case Copied(space, _, b) => 4 * (space + |s.queue| + (if b.payload != [] then 1 else 0)) + 4
    case Announced(space, _, _) => 4 * (space + |s.queue|) + 3
    case Leaving(_) => 1
  }

  lemma StepTakesOne(s: State, a: Action)
    requires Enabled(s, a) && InLoop(s.phase)
    ensures InLoop(Next(s, a).phase)
    ensures OfCallback(a) ==> StepsLeft(Next(s, a)) < StepsLeft(s)
    ensures !OfCallback(a) && !a.Begin? ==> StepsLeft(Next(s, a)) <= StepsLeft(s) + if a.Put? then 4 else 0
  {
  }

  function CallbackStep(p: Phase): Action
    requires !p.Idle?
  {
    match p
    case Fetching(space, _) => if space > 0 then Get else Full
    case Holding(_, _, _) => Copy
    case Copied(_, _, _) => Settle
    case Announced(_, _, _) => HandBack
    case Leaving(_) => Subtract
  }

  lemma {:induction false} StepsRunOut(s: State, actions: seq<Action>, t: State)
    requires InLoop(s.phase) && Reaches(s, actions, t)
    requires forall a :: a in actions ==> !a.Begin?
    ensures CallbackSteps(actions) + StepsLeft(t) <= StepsLeft(s) + 4 * Puts(actions)
    decreases |actions|
  {
    if actions == [] {
    } else {
      StepTakesOne(s, actions[0]);
      StepsRunOut(Next(s, actions[0]), actions[1..], t);
    }
  }

  /**
   * From every reachable state on, the current call of the callback takes no more steps than
   * StepsLeft and four for every header queued meanwhile; until it is over one of its steps
   * can be taken; and it never holds up a send.
   */
  lemma CallbackEnds(before: seq<Action>, s: State, actions: seq<Action>, t: State)
    requires Reaches(START, before, s) && Reaches(s, actions, t)
    requires forall a :: a in actions ==> !a.Begin?
    ensures CallbackSteps(actions) + StepsLeft(t) <= StepsLeft(s) + 4 * Puts(actions)
    ensures t.phase.Idle? || exists a :: OfCallback(a) && Enabled(t, a)
    ensures forall i :: 0 <= i < |t.counted| ==> Enabled(t, Put(i))
    ensures forall b :: Enabled(t, Count(b))
    ensures forall id :: Enabled(t, Reject(id))
  {
    RunKeepsInv(START, before, s);
    StepsRunOut(s, actions, t);
    if !t.phase.Idle? {
      var a := CallbackStep(t.phase);
      assert OfCallback(a) && Enabled(t, a);
    }
  }

  // ------------------------------------------------------------------------------------
  // What one call delivers while sends go on

  /** What a call for `asked` bytes has left to do, and what it has done since `delivered` bytes were out. */
  ghost predicate OnBudget(s: State, asked: nat, delivered: nat, available: nat) {
    && !s.phase.Idle?
    && |Delivered(s.log)| == delivered + s.phase.size
    && (if s.phase.Leaving? then s.phase.size <= asked && Min(asked, available) <= s.phase.size
        else s.phase.space + s.phase.size == asked && available <= s.phase.size + |Bytes(Pipeline(s))|)
  }

  /** Inside a call, what is delivered is counted in `size` and taken from the pipeline. */
  lemma StepMoves(s: State, a: Action)
    requires !s.phase.Idle? && InLoop(s.phase) && Enabled(s, a) && !a.Begin? && !a.Subtract?
    ensures var t := Next(s, a);
      && !t.phase.Idle?
      && |Delivered(t.log)| == |Delivered(s.log)| + t.phase.size - s.phase.size
      && t.phase.size + |Bytes(Pipeline(t))| >= s.phase.size + |Bytes(Pipeline(s))|
  {
    if a.Put? {
      PutMoves(s, a.index);
    } else if a.Copy? {
      CopyMoves(s);
    } else if a.Settle? || a.HandBack? {
      SettleMoves(s, a);
    } else {
      QuietMoves(s, a);
    }
  }

  lemma PutMoves(s: State, i: nat)
    requires Enabled(s, Put(i))
    ensures |Bytes(Pipeline(Next(s, Put(i))))| >= |Bytes(Pipeline(s))|
  {
    Assoc(InHand(s.phase), s.queue, [s.counted[i]]);
    BytesSnoc(Pipeline(s), s.counted[i]);
  }

  lemma CopyMoves(s: State)
    requires Enabled(s, Copy)
    ensures var t := Next(s, Copy);
      && |Bytes(Pipeline(s))| == t.phase.size - s.phase.size + |Bytes(Pipeline(t))|
      && |Delivered(t.log)| == |Delivered(s.log)| + t.phase.size - s.phase.size
  {
    var p := Pipeline(s);
    var n := Min(|s.phase.buffer.payload|, s.phase.space);
    assert p[0] == s.phase.buffer && p[1..] == s.queue;
    SplitHead(p, n);
    assert Pipeline(Next(s, Copy)) == Cut(p, n);
    LogSnoc(s.log, Deliver(p[0].payload[..n]));
  }

  lemma SettleMoves(s: State, a: Action)
    requires (a.Settle? || a.HandBack?) && Enabled(s, a) && InLoop(s.phase)
    ensures var t := Next(s, a);
      |Bytes(Pipeline(t))| == |Bytes(Pipeline(s))| && Delivered(t.log) == Delivered(s.log)
  {
    var t, p := Next(s, a), Pipeline(s);
    assert p[0] == s.phase.buffer && p[1..] == s.queue;
    BytesHead(p);
    assert Pipeline(t) == p || (p[0].payload == [] && Pipeline(t) == p[1..]);
    if t.log != s.log {
      LogSnoc(s.log, t.log[|s.log|]);
    }
  }

  lemma QuietMoves(s: State, a: Action)
    requires Enabled(s, a) && (a.Count? || a.Reject? || a.Get? || a.Full?)
    ensures var t := Next(s, a);
      Pipeline(t) == Pipeline(s) && Delivered(t.log) == Delivered(s.log)
  {
    if a.Reject? {
      LogSnoc(s.log, Discard(a.id));
    }
  }

  lemma StepOnBudget(s: State, a: Action, asked: nat, delivered: nat, available: nat)
    requires OnBudget(s, asked, delivered, available)
    requires InLoop(s.phase) && Enabled(s, a) && !a.Begin? && !a.Subtract?
    ensures OnBudget(Next(s, a), asked, delivered, available)
  {
    StepMoves(s, a);
  }

  lemma BeginOnBudget(s: State, asked: nat)
    requires s.phase.Idle? && s.queue != []
    ensures var t := Next(s, Begin(asked));
      OnBudget(t, asked, |Delivered(s.log)|, |Bytes(s.queue)|) && InLoop(t.phase)
  {
    assert Pipeline(Next(s, Begin(asked))) == s.queue;
  }

  lemma {:induction false} RunOnBudget(s: State, actions: seq<Action>, t: State,
                                       asked: nat, delivered: nat, available: nat)
    requires OnBudget(s, asked, delivered, available) && InLoop(s.phase) && Reaches(s, actions, t)
    requires forall a :: a in actions ==> !a.Begin? && !a.Subtract?
    ensures OnBudget(t, asked, delivered, available)
    decreases |actions|
  {
    if actions == [] {
    } else {
      StepOnBudget(s, actions[0], asked, delivered, available);
      StepTakesOne(s, actions[0]);
      RunOnBudget(Next(s, actions[0]), actions[1..], t, asked, delivered, available);
    }
  }

  /**
   * Whatever is sent meanwhile, a call for `asked` bytes that begins on a non-empty queue
   * delivers no more than that, and no less than there was queued when it began, or all that
   * was asked for if that is less; and it ends by lowering the counter by what it delivered.
   */
  lemma CallDelivers(s: State, asked: nat, actions: seq<Action>, t: State)
    requires s.phase.Idle? && s.queue != []
    requires Reaches(Next(s, Begin(asked)), actions, t)
    requires forall a :: a in actions ==> !a.Begin? && !a.Subtract?
    ensures !t.phase.Idle? && t.phase.size <= asked
    ensures |Delivered(t.log)| == |Delivered(s.log)| + t.phase.size
    ensures t.phase.Leaving? ==>
      && Min(asked, |Bytes(s.queue)|) <= t.phase.size
      && Next(t, Subtract).counter == Wrap32(t.counter - (|Delivered(t.log)| - |Delivered(s.log)|))
  {
    BeginOnBudget(s, asked);
    RunOnBudget(Next(s, Begin(asked)), actions, t, asked, |Delivered(s.log)|, |Bytes(s.queue)|);
  }

  /** On an empty queue a call does nothing at all. */
  lemma EmptyCallDoesNothing(s: State, asked: nat)
    requires s.phase.Idle? && s.queue == []
    ensures Enabled(s, Begin(asked)) && Next(s, Begin(asked)) == s
  {
  }
}
